/** Start-up: the credential list built from the configuration's `User `
    sections and handed to the server. Parsing the file is not modelled; the
    sections arrive already parsed, in file order. */
module Config {
  import opened SftpServer

  /** A configuration section: its name and its options. */
  datatype Section = Section(name: string, options: map<string, string>)

  /** Only sections whose name starts with `User ` (capital U, trailing space) hold credentials. */
  predicate IsUserSection(section: Section)
  {
    "User " <= section.name
  }

  predicate HasCredentials(section: Section)
  {
    "username" in section.options && "password" in section.options
  }

  /** Every user section has both options; a missing one is a lookup error at start-up. */
  predicate UserSectionsComplete(sections: seq<Section>)
  {
    forall i :: 0 <= i < |sections| && IsUserSection(sections[i]) ==> HasCredentials(sections[i])
  }

  function CredentialOf(section: Section): (c: Credential)
    requires HasCredentials(section)
  {
    (section.options["username"], section.options["password"])
  }

  /** The credentials of the user sections, in section order. */
  function UsersOf(sections: seq<Section>): (users: seq<Credential>)
    requires UserSectionsComplete(sections)
  {
    if sections == [] then []
    else
      var last := sections[|sections| - 1];
      UsersOf(sections[..|sections| - 1]) + (if IsUserSection(last) then [CredentialOf(last)] else [])
  }

  /** The indices of the user sections. */
  function UserSectionIndices(sections: seq<Section>): (indices: set<nat>)
  {
    set i: nat | i < |sections| && IsUserSection(sections[i])
  }

  /** The loop of the start-up code: walk the sections in order and append
      (username, password) for each user section. */
  method BuildUsers(sections: seq<Section>) returns (users: seq<Credential>)
    requires UserSectionsComplete(sections)
    ensures users == UsersOf(sections)
  {
    users := [];
    for i := 0 to |sections|
      invariant users == UsersOf(sections[..i])
    {
      var section := sections[i];
      if "User " <= section.name {
        var username := section.options["username"];
        var password := section.options["password"];
        users := users + [(username, password)];
      }
      assert sections[..i + 1][..i] == sections[..i];
    }
    assert sections[..|sections|] == sections;
  }

  /** Building over two runs of sections is building over each in turn:
      section order is kept, and so are duplicates. */
  lemma {:induction false} UsersOfAppend(first: seq<Section>, second: seq<Section>)
    requires UserSectionsComplete(first + second)
    ensures UserSectionsComplete(first) && UserSectionsComplete(second)
    ensures UsersOf(first + second) == UsersOf(first) + UsersOf(second)
  {
    assert forall i :: 0 <= i < |first| ==> first[i] == (first + second)[i];
    assert forall i :: 0 <= i < |second| ==> second[i] == (first + second)[|first| + i];
    if second != [] {
      var init := second[..|second| - 1];
      assert (first + second)[..|first + second| - 1] == first + init;
      assert UserSectionsComplete(first + init) by {
        assert forall i :: 0 <= i < |first + init| ==> (first + init)[i] == (first + second)[i];
      }
      UsersOfAppend(first, init);
    } else {
      assert first + second == first;
    }
  }

  /** One credential per user section: the list is exactly as long as there
      are user sections. */
  lemma {:induction false} UsersOfCount(sections: seq<Section>)
    requires UserSectionsComplete(sections)
    ensures |UsersOf(sections)| == |UserSectionIndices(sections)|
  {
    if sections != [] {
      var n := |sections| - 1;
      var init := sections[..n];
      UsersOfCount(init);
      assert UserSectionIndices(sections) ==
        UserSectionIndices(init) + (if IsUserSection(sections[n]) then {n} else {});
      assert n !in UserSectionIndices(init);
    } else {
      assert UserSectionIndices(sections) == {};
    }
  }

  /** A pair is in the list exactly when some user section holds exactly that
      username and that password. */
  lemma {:induction false} UsersOfMembership(sections: seq<Section>, credential: Credential)
    requires UserSectionsComplete(sections)
    ensures credential in UsersOf(sections) <==>
      exists i :: 0 <= i < |sections| && IsUserSection(sections[i]) && CredentialOf(sections[i]) == credential
  {
    if sections != [] {
      var n := |sections| - 1;
      var init := sections[..n];
      UsersOfMembership(init, credential);
      assert forall i :: 0 <= i < n ==> init[i] == sections[i];
      if credential in UsersOf(sections) && credential !in UsersOf(init) {
        assert IsUserSection(sections[n]) && CredentialOf(sections[n]) == credential;
      }
    }
  }

  /** A server started with the users built from `sections` accepts a login
      exactly when some user section holds that username and that password. */
  lemma AuthAcceptsConfiguredUsers(server: SFTPServer, sections: seq<Section>, username: string, password: string)
    requires UserSectionsComplete(sections) && server.users == UsersOf(sections)
    ensures server.CheckAuthPassword(username, password) == AuthSuccessful <==>
      exists i :: 0 <= i < |sections| && IsUserSection(sections[i])
                  && sections[i].options["username"] == username && sections[i].options["password"] == password
  {
    UsersOfMembership(sections, (username, password));
  }
}
