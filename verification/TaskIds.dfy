/** The ids the planner mints for shared dependencies, and what the primary recovers from them
    (`suit_task.py`). */
module TaskIds {
  import opened Wrappers
  import opened TaskGraph

  /** The four shapes of a `build_common_dep` id. */
  datatype Shape = PerCell | ArchIndep | CrossArch | Family(name: string)

  function Mint(shape: Shape, ident: string): string {
    match shape
    case PerCell => "build_common_dep__" + ident
    case ArchIndep => "build_common_dep__" + ("arch_indep__" + ident)
    case CrossArch => "build_common_dep__" + ("cross_arch__" + ident)
    case Family(name) => "build_common_dep__" + ("family__" + (name + "__" + ident))
  }

  /** `<hash>-<name>`: the token before the first dash is a non-empty store hash, without underscores. */
  predicate HashFirst(ident: string) {
    HeadToken(ident) != "" && '_' !in HeadToken(ident)
  }

  /** No double underscore can be seen in the family name or where it ends. */
  predicate CleanFamily(name: string) {
    AfterSeparator(name + "_") == None
  }

  lemma UnderscoreInHead(ident: string, k: nat)
    requires k < |ident| && ident[k] == '_' && forall j :: 0 <= j < k ==> ident[j] != '-'
    ensures '_' in HeadToken(ident)
  {
    assert k < IndexOf(ident, '-');
    assert HeadToken(ident)[k] == '_';
  }

  lemma InfixShows(ident: string, infix: string)
    requires infix in {"arch_indep__", "cross_arch__", "family__"} && infix <= ident
    ensures '_' in HeadToken(ident)
  {
    var k := if infix == "arch_indep__" then 4 else if infix == "cross_arch__" then 5 else 6;
    assert infix[k] == '_' && forall j :: 0 <= j < k ==> infix[j] != '-';
    assert forall j :: 0 <= j <= k ==> ident[j] == infix[j];
    UnderscoreInHead(ident, k);
  }

  lemma NotAnInfix(ident: string, infix: string)
    requires HashFirst(ident) && infix in {"arch_indep__", "cross_arch__", "family__"}
    ensures !(infix <= ident)
  {
    hide HeadToken;
    if infix <= ident { InfixShows(ident, infix); }
  }

  /** The separator found is the one after the family exactly when the family is clean. */
  lemma {:induction false} SeparatorAfter(name: string, ident: string)
    requires HashFirst(ident)
    ensures AfterSeparator(name + "__" + ident).Some?
    ensures CleanFamily(name) <==> AfterSeparator(name + "__" + ident) == Some(ident)
    ensures !CleanFamily(name) ==> |AfterSeparator(name + "__" + ident).value| > |ident|
  {
    var s := name + "__" + ident;
    if name == "" {
      assert s[2..] == ident;
      assert AfterSeparator("" + "_") == None;
    } else {
      var tail := name[1..];
      SeparatorAfter(tail, ident);
      assert s[1..] == tail + "__" + ident;
      assert (name + "_")[1..] == tail + "_";
      assert s[0] == (name + "_")[0] && s[1] == (name + "_")[1];
    }
  }

  lemma StripPrefix(rest: string)
    ensures "build_common_dep__" <= "build_common_dep__" + rest && ("build_common_dep__" + rest)[18..] == rest
  {
  }

  lemma StripInfix(infix: string, rest: string)
    requires infix in {"arch_indep__", "cross_arch__", "family__"}
    ensures infix <= infix + rest && (infix + rest)[|infix|..] == rest
    ensures "arch_indep__" <= infix + rest <==> infix == "arch_indep__"
    ensures "cross_arch__" <= infix + rest <==> infix == "cross_arch__"
    ensures "family__" <= infix + rest <==> infix == "family__"
  {
    assert (infix + rest)[0] == infix[0];
    assert "arch_indep__"[0] == 'a' && "cross_arch__"[0] == 'c' && "family__"[0] == 'f';
  }

  /** The ident of every minted id is recovered, except that a family name must not show a double
      underscore; then, and only then, something longer is returned. */
  lemma IdentRecovered(shape: Shape, ident: string)
    requires HashFirst(ident)
    ensures IdentOf(Mint(shape, ident)) == Some(ident) <==> (shape.Family? ==> CleanFamily(shape.name))
  {
    hide AfterSeparator, CleanFamily, HeadToken;
    assert ident != "" by { HeadOfNothing(); }
    match shape
    case PerCell =>
      StripPrefix(ident);
      NotAnInfix(ident, "arch_indep__");
      NotAnInfix(ident, "cross_arch__");
      NotAnInfix(ident, "family__");
    case ArchIndep =>
      StripPrefix("arch_indep__" + ident);
      StripInfix("arch_indep__", ident);
    case CrossArch =>
      StripPrefix("cross_arch__" + ident);
      StripInfix("cross_arch__", ident);
    case Family(name) =>
      var rest := name + "__" + ident;
      StripPrefix("family__" + rest);
      StripInfix("family__", rest);
      SeparatorAfter(name, ident);
  }

  lemma HeadOfNothing()
    ensures HeadToken("") == ""
  {
  }

  // ------------------------------------------------------------------------------ the right gate

  lemma {:induction false} IndexConcat(a: string, b: string, c: char)
    ensures IndexOf(a + b, c) == if c in a then IndexOf(a, c) else |a| + IndexOf(b, c)
  {
    if a == "" {
      assert a + b == b;
    } else {
      assert (a + b)[1..] == a[1..] + b && (a + b)[0] == a[0];
      IndexConcat(a[1..], b, c);
    }
  }

  lemma HeadConcat(a: string, b: string)
    ensures HeadToken(a + b) == if '-' in a then HeadToken(a) else a + HeadToken(b)
  {
    IndexConcat(a, b, '-');
    var i := IndexOf(a + b, '-');
    if '-' in a {
      assert (a + b)[..i] == a[..i];
    } else {
      assert (a + b)[..i] == a + b[..i - |a|];
    }
  }

  /** A separator inside the family name is found first; one that only shows where the name meets the
      separator leaves an underscore behind. */
  lemma {:induction false} UncleanSplit(name: string, ident: string)
    requires !CleanFamily(name)
    ensures AfterSeparator(name + "__" + ident) == match AfterSeparator(name)
      case Some(r) => Some(r + ("__" + ident))
      case None => Some("_" + ident)
  {
    var s := name + "__" + ident;
    if name == "" {
      assert false;
    } else if |name| == 1 {
      assert (name + "_")[1..] == "_" && AfterSeparator("_") == None;
      assert name[0] == '_' && (name + "_")[1] == '_';
      assert s[2..] == "_" + ident;
    } else if name[0] == '_' && name[1] == '_' {
      assert s[2..] == name[2..] + ("__" + ident);
    } else {
      assert s[1..] == name[1..] + "__" + ident;
      assert (name + "_")[1..] == name[1..] + "_";
      UncleanSplit(name[1..], ident);
    }
  }

  /** What a caller can check of a family name: it shows no separator, or the one inside it is
      followed by the very hash and a dash. */
  predicate KeepsGate(name: string, ident: string) {
    CleanFamily(name)
    || (AfterSeparator(name).Some? && '-' in AfterSeparator(name).value
        && HeadToken(AfterSeparator(name).value) == HeadToken(ident))
  }

  /** The head token behind the first separator is the ident's exactly for such a name. */
  lemma HeadAfterFamily(name: string, ident: string)
    requires HashFirst(ident)
    ensures AfterSeparator(name + "__" + ident).Some?
    ensures HeadToken(AfterSeparator(name + "__" + ident).value) == HeadToken(ident) <==> KeepsGate(name, ident)
  {
    hide AfterSeparator, CleanFamily, HeadToken;
    SeparatorAfter(name, ident);
    if !CleanFamily(name) {
      UncleanSplit(name, ident);
      match AfterSeparator(name)
      case Some(r) =>
        HeadConcat(r, "__" + ident);
        HeadConcat("__", ident);
        assert (r + ("__" + HeadToken(ident)))[|r|] == '_';
      case None =>
        HeadConcat("_", ident);
        assert ("_" + HeadToken(ident))[0] == '_';
    }
  }

  lemma FamilyIdent(name: string, ident: string)
    requires HashFirst(ident) && AfterSeparator(name + "__" + ident).Some?
    ensures IdentOf(Mint(Family(name), ident)) == Some(AfterSeparator(name + "__" + ident).value)
  {
    hide AfterSeparator, CleanFamily, HeadToken;
    var rest := name + "__" + ident;
    StripPrefix("family__" + rest);
    StripInfix("family__", rest);
    SeparatorAfter(name, ident);
    assert ident != "" by { HeadOfNothing(); }
  }

  lemma SameGate(a: string, b: string)
    ensures "import_common_dep_" + a == "import_common_dep_" + b <==> a == b
  {
    var p := "import_common_dep_";
    assert (p + a)[|p|..] == a && (p + b)[|p|..] == b;
  }

  /** The import gate of a shared dependency is the gate of its store hash, whatever shape of task id
      it came in, exactly when a family name keeps it. */
  lemma GateFollowsHash(shape: Shape, ident: string)
    requires HashFirst(ident)
    ensures GateIdOf(Mint(shape, ident)) == Some("import_common_dep_" + HeadToken(ident)) <==>
      (shape.Family? ==> KeepsGate(shape.name, ident))
  {
    hide IdentOf, HeadToken, CleanFamily, KeepsGate, AfterSeparator;
    IdentRecovered(shape, ident);
    if shape.Family? {
      HeadAfterFamily(shape.name, ident);
      FamilyIdent(shape.name, ident);
      SameGate(HeadToken(AfterSeparator(shape.name + "__" + ident).value), HeadToken(ident));
    }
  }

  /** The arch families of the planner's table, and the one for every other arch. */
  const FAMILIES := ["x86", "arm", "mips", "power", "riscv", "other"]

  lemma {:induction false} NoUnderscoreIsClean(name: string)
    requires '_' !in name
    ensures CleanFamily(name)
  {
    if name != "" {
      NoUnderscoreIsClean(name[1..]);
      assert (name + "_")[1..] == name[1..] + "_";
    }
  }

  /** For every family the planner can name, ident and gate come back. */
  lemma PlannedFamilies(name: string, ident: string)
    requires name in FAMILIES && HashFirst(ident)
    ensures IdentOf(Mint(Family(name), ident)) == Some(ident)
    ensures GateIdOf(Mint(Family(name), ident)) == Some("import_common_dep_" + HeadToken(ident))
  {
    hide IdentOf, GateIdOf, HashFirst, CleanFamily;
    NoUnderscoreIsClean(name);
    IdentRecovered(Family(name), ident);
    GateFollowsHash(Family(name), ident);
  }

  /** An id of any other kind has no ident, and so no gate. */
  lemma ForeignIdHasNoGate(taskId: string)
    requires !("build_common_dep__" <= taskId)
    ensures IdentOf(taskId) == None && GateIdOf(taskId) == None
  {
  }

  // -------------------------------------------------------------------------- tokens of store paths

  /** The head token is the part before the first dash, the whole string without one. */
  lemma HeadIs(head: string, tail: string)
    requires '-' !in head && (tail == "" || tail[0] == '-')
    ensures HeadToken(head + tail) == head
  {
    hide HeadToken;
    HeadConcat(head, tail);
    HeadOfDash(tail);
  }

  lemma HeadOfDash(tail: string)
    requires tail == "" || tail[0] == '-'
    ensures HeadToken(tail) == ""
  {
  }

  /** The basename is the part behind the last slash, the whole string without one. */
  lemma {:induction false} BasenameIs(dir: string, name: string)
    requires '/' !in name && (dir == "" || dir[|dir| - 1] == '/')
    ensures Basename(dir + name) == name
    decreases |dir|
  {
    hide Basename;
    var s := dir + name;
    IndexConcat(dir, name, '/');
    NoSlash(name);
    if dir == "" {
      assert s == name;
      BasenameWhole(name);
    } else {
      var i := IndexOf(dir, '/');
      assert dir[|dir| - 1] == '/';
      assert s[i + 1..] == dir[i + 1..] + name;
      BasenameIs(dir[i + 1..], name);
      BasenameAfter(s);
    }
  }

  lemma NoSlash(name: string)
    requires '/' !in name
    ensures IndexOf(name, '/') == |name|
  {
    assert forall j :: 0 <= j < |name| ==> name[j] in name;
  }

  lemma BasenameWhole(s: string)
    requires IndexOf(s, '/') == |s|
    ensures Basename(s) == s
  {
  }

  lemma BasenameAfter(s: string)
    requires IndexOf(s, '/') < |s|
    ensures Basename(s) == Basename(s[IndexOf(s, '/') + 1..])
  {
  }

  /** The toolchain gate of a store path, in any directory, carries the hash: what stands between the
      last slash and the first dash behind it. There is none exactly for an empty hash. */
  lemma ToolchainGateIs(dir: string, hash: string, tail: string)
    requires dir == "" || dir[|dir| - 1] == '/'
    requires '-' !in hash && '/' !in hash && '/' !in tail && (tail == "" || tail[0] == '-')
    ensures ToolchainGateId(dir + (hash + tail)) == if hash == "" then None else Some("import_tc_" + hash)
  {
    hide Basename, HeadToken;
    BasenameIs(dir, hash + tail);
    HeadIs(hash, tail);
  }
}
