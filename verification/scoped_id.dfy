/**
 * Turning a scoped identifier `namespace/name`, as printed by the CLI, into the
 * bare resource name the tests look up (tests/03_stack_test.go, repeated in
 * tests/04_image_update_test.go and tests/05_cleanup_test.go).
 */
module ScopedId {
  import opened Text
  import CliOutput
  import Fixtures

  /**
   * The identifier is split at every '/'; with exactly two parts the name is the
   * second, otherwise the identifier is taken to be the name.
   */
  function NameOf(id: string): (name: string)
    ensures Occurrences(id, '/') != 1 ==> name == id
    ensures '/' in name <==> Occurrences(id, '/') >= 2
  {
    var parts := Split(id, '/');
    if |parts| == 2 then parts[1] else id
  }

  /** With exactly one '/', the name is the text after it. */
  lemma NameAfterOnlySlash(id: string)
    requires Occurrences(id, '/') == 1
    ensures exists ns :: '/' !in ns && id == ns + "/" + NameOf(id)
  {
    var parts := Split(id, '/');
    JoinSplit(id, '/');
    assert Join(parts[1..], '/') == parts[1];
    assert id == parts[0] + "/" + parts[1];
  }

  /** Round trip: the name of `ns/name` is `name`, for slash-free parts. */
  lemma NameOfScoped(ns: string, name: string)
    requires '/' !in ns && '/' !in name
    ensures NameOf(ns + "/" + name) == name
  {
    assert ns + "/" + name == ns + ['/'] + name;
    SplitAfterPiece(ns, '/', name);
    SplitWithoutSeparator(name, '/');
  }

  /** An identifier with several '/' is not shortened to its last segment. */
  lemma NestedIdKeptWhole()
    ensures NameOf("a/b/c") == "a/b/c"
  {
    assert Occurrences("a/b/c", '/') == 2;
  }

  /** A character that is in neither part nor equals the joining character is not in the joined string. */
  lemma NotInJoined(a: string, sep: char, b: string, c: char)
    requires c !in a && c !in b && c != sep
    ensures c !in a + [sep] + b
  {
    var s := a + [sep] + b;
    forall k | 0 <= k < |s| ensures s[k] != c {
      if k < |a| { assert s[k] == a[k]; }
      else if k > |a| { assert s[k] == b[k - |a| - 1]; }
    }
  }

  /**
   * The stack flow: the CLI announces `ID: <namespace>/<stack>`, the harness
   * extracts the identifier and derives the stack name from it.
   */
  lemma AnnouncedStackName(ns: string, stack: string, rest: string)
    requires '/' !in ns && '/' !in stack
    requires '\n' !in ns && '\n' !in stack
    requires NoOuterSpace(ns + "/" + stack)
    ensures CliOutput.ExtractStackId("ID: " + (ns + "/" + stack) + "\n" + rest) == ns + "/" + stack
    ensures NameOf(ns + "/" + stack) == stack
  {
    assert ns + "/" + stack == ns + ['/'] + stack;
    NotInJoined(ns, '/', stack, '\n');
    CliOutput.ExtractAnnouncedId(ns + "/" + stack, rest);
    NameOfScoped(ns, stack);
  }

  /** In particular for a stack in a user namespace. */
  lemma AnnouncedUserStackName(user: string, stack: string, rest: string)
    requires '/' !in user && '/' !in stack
    requires '\n' !in user && '\n' !in stack
    requires NoOuterSpace(stack)
    ensures var id := Fixtures.UserNamespace(user) + "/" + stack;
      && CliOutput.ExtractStackId("ID: " + id + "\n" + rest) == id
      && NameOf(id) == stack
  {
    var ns := Fixtures.UserNamespace(user);
    UserNamespaceIsPlain(user);
    var id := ns + "/" + stack;
    assert id[0] == 'd';
    assert id[|id| - 1] == if |stack| > 0 then stack[|stack| - 1] else '/';
    AnnouncedStackName(ns, stack, rest);
  }

  lemma UserNamespaceIsPlain(user: string)
    requires '/' !in user && '\n' !in user
    ensures '/' !in Fixtures.UserNamespace(user) && '\n' !in Fixtures.UserNamespace(user)
  {
    var ns := Fixtures.UserNamespace(user);
    forall k | 0 <= k < |ns| ensures ns[k] != '/' && ns[k] != '\n' {
      if k >= 4 { assert ns[k] == user[k - 4]; }
    }
  }

  /**
   * The example the stack tests rely on: the output `ID: dev-e2e-user/foo\n`
   * yields the identifier `dev-e2e-user/foo`, in the namespace of `e2e-user`,
   * and the stack name `foo`, which the stack scenario then looks up in the
   * user's namespace.
   */
  lemma E2eStackExample(ns: string, stack: string, rest: string)
    requires ns == "dev-e2e-user" && stack == "foo" && rest == ""
    ensures ns == Fixtures.UserNamespace("e2e-user")
    ensures CliOutput.ExtractStackId("ID: " + (ns + "/" + stack) + "\n" + rest) == ns + "/" + stack
    ensures NameOf(ns + "/" + stack) == stack
  {
    var id := ns + "/" + stack;
    assert forall k :: 0 <= k < |ns| ==> ns[k] != '/' && ns[k] != '\n';
    assert forall k :: 0 <= k < |stack| ==> stack[k] != '/' && stack[k] != '\n';
    assert id[0] == 'd' && id[|id| - 1] == 'o';
    AnnouncedStackName(ns, stack, rest);
    Fixtures.E2eUserNamespace();
  }
}
