/**
 * Naming conventions of the harness (tests/helpers/fixtures.go): the
 * platform's namespaces, the fixture names and the test repository, and the
 * per-user namespace `dev-<username>`.
 */
module Fixtures {
  import opened Wrappers

  const FixtureSimpleNginx: string := "simple-nginx.yaml"
  const FixtureMultiService: string := "multi-service.yaml"

  /** The repository URL the platform is configured with for the tests. */
  const TestRepository: string := "https://github.com/lissto-dev/e2e"

  const LisstoSystemNamespace: string := "lissto-system"
  const GlobalNamespace: string := "lissto-global"
  const UserNamespacePrefix: string := "dev-"

  /** `GetUserNamespace`: the namespace holding a user's blueprints and stacks. */
  function UserNamespace(username: string): (ns: string)
    ensures UserNamespacePrefix <= ns
    ensures ns[|UserNamespacePrefix|..] == username
    ensures |ns| == |username| + 4
  {
    UserNamespacePrefix + username
  }

  /** The user a namespace belongs to, if it is a user namespace at all. */
  function UsernameOf(ns: string): (username: Option<string>) {
    if UserNamespacePrefix <= ns then Some(ns[|UserNamespacePrefix|..]) else None
  }

  /** UsernameOf undoes UserNamespace ... */
  lemma UsernameOfUserNamespace(username: string)
    ensures UsernameOf(UserNamespace(username)) == Some(username)
  {
  }

  /** ... and every user namespace is UserNamespace of its user. */
  lemma UserNamespaceOfUsername(ns: string)
    requires UsernameOf(ns).Some?
    ensures UserNamespace(UsernameOf(ns).value) == ns
  {
    assert ns == ns[..4] + ns[4..];
  }

  /** Different users get different namespaces. */
  lemma UserNamespaceInjective(a: string, b: string)
    requires UserNamespace(a) == UserNamespace(b)
    ensures a == b
  {
    UsernameOfUserNamespace(a);
    UsernameOfUserNamespace(b);
  }

  /** No user namespace is one of the platform's own. */
  lemma UserNamespaceNotReserved(username: string)
    ensures UserNamespace(username) != GlobalNamespace
    ensures UserNamespace(username) != LisstoSystemNamespace
    ensures UsernameOf(GlobalNamespace) == None && UsernameOf(LisstoSystemNamespace) == None
  {
    assert GlobalNamespace[0] != UserNamespacePrefix[0];
    assert LisstoSystemNamespace[0] != UserNamespacePrefix[0];
  }

  /** The namespace the stack tests look in for user `e2e-user`. */
  lemma E2eUserNamespace()
    ensures UserNamespace("e2e-user") == "dev-e2e-user"
  {
  }
}
