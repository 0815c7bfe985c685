/** Building the registry of atom types from a mapping module: the module
    path is normalised into a dotted module name, and every proper subclass
    of the atom base class found in that module is instantiated and stored
    under its pattern, with Python dict semantics (a key keeps the position
    of its first insertion, and holds the value assigned last). */
module AtomImporter {
  import opened Wrappers
  import opened Strings
  import opened AtomPattern
  import opened Atoms

  // ---------------------------------------------------------------------
  // format_file_name

  /** `format_file_name`: every `/` becomes `.`, then every `.py` is deleted,
      each step only when its text occurs. */
  function FormatFileName(fileStr: string): string {
    var output := if Contains(fileStr, "/") then Replace(fileStr, "/", ".") else fileStr;
    if Contains(output, ".py") then Replace(output, ".py", "") else output
  }

  /** The guards change nothing: the result is the two replacements in turn. */
  lemma FormatFileNameIsTwoReplacements(fileStr: string)
    ensures FormatFileName(fileStr) == Replace(Replace(fileStr, "/", "."), ".py", "")
  {
    if !Contains(fileStr, "/") { ReplaceAbsent(fileStr, "/", "."); }
    var output := Replace(fileStr, "/", ".");
    if !Contains(output, ".py") { ReplaceAbsent(output, ".py", ""); }
  }

  /** The result has no `/`, is never longer than the input, and is the
      input itself when it holds neither `/` nor `.py`. It is what is left
      of the slash-replaced text once cut at each `.py`, left to right:
      none of the remaining pieces holds `.py`. */
  lemma FormatFileNameSpec(fileStr: string)
    ensures '/' !in FormatFileName(fileStr)
    ensures |FormatFileName(fileStr)| <= |fileStr|
    ensures !Contains(fileStr, "/") && !Contains(fileStr, ".py") ==> FormatFileName(fileStr) == fileStr
    ensures var dotted := Replace(fileStr, "/", ".");
      && FormatFileName(fileStr) == Join(SplitOn(dotted, ".py"), "")
      && forall i | 0 <= i < |SplitOn(dotted, ".py")| :: !Contains(SplitOn(dotted, ".py")[i], ".py")
  {
    var dotted := Replace(fileStr, "/", ".");
    var r := FormatFileName(fileStr);
    FormatFileNameIsTwoReplacements(fileStr);
    ReplaceRemovesChar(fileStr, '/', ".");
    if '/' in r { ReplaceChars(dotted, ".py", "", '/'); }
    ReplaceLength(fileStr, "/", ".");
    ReplaceLength(dotted, ".py", "");
    ReplaceIsJoinOfSplit(dotted, ".py", "");
    SplitPiecesLackSeparator(dotted, ".py");
  }

  /** The path of a mapping file becomes its module name. */
  lemma FormatFileNameExample()
    ensures FormatFileName("atoms/my.py") == "atoms.my"
  {
    FormatFileNameIsTwoReplacements("atoms/my.py");
    SlashStep();
    PyStep();
  }

  lemma SlashStep()
    ensures Replace("atoms/my.py", "/", ".") == "atoms.my.py"
  {
    var a, b := "atoms", "my.py";
    SlashFree(a);
    SlashFree(b);
    ReplaceAtMatch("/", b, ".");
    ReplaceAppend(a, "/" + b, "/", ".");
    SlashPieces();
  }

  lemma SlashFree(s: string)
    requires '/' !in s
    ensures Replace(s, "/", ".") == s
  {
    ContainsChar(s, '/');
    ReplaceAbsent(s, "/", ".");
  }

  lemma SlashPieces()
    ensures "atoms/my.py" == "atoms" + ("/" + "my.py")
    ensures "atoms" + ("." + "my.py") == "atoms.my.py"
  {
  }

  lemma PyStep()
    ensures Replace("atoms.my.py", ".py", "") == "atoms.my"
  {
    PyStepPieces();
    DropTrailing("atoms.my", ".py");
    PyPieces();
  }

  lemma PyPieces()
    ensures "atoms.my.py" == "atoms.my" + ".py"
  {
  }

  /** A text left alone by the replacement, followed by one occurrence that
      cannot start inside it, loses just that occurrence. */
  lemma DropTrailing(a: string, pat: string)
    requires |pat| > 0 && NoStraddle(a, pat) && Replace(a, pat, "") == a
    ensures Replace(a + pat, pat, "") == a
  {
    ReplaceAppend(a, pat, pat, "");
    ReplaceAtMatch(pat, "", "");
    assert pat + "" == pat;
  }

  lemma PyStepPieces()
    ensures Replace("atoms.my", ".py", "") == "atoms.my"
    ensures NoStraddle("atoms.my", ".py")
  {
    PyHeadUnchanged();
    NoStraddleAtPyTail();
  }

  lemma PyHeadUnchanged()
    ensures Replace("atoms.my", ".py", "") == "atoms.my"
  {
    CharAbsent("atoms.my", 'p', ".py", 1);
    ReplaceAbsent("atoms.my", ".py", "");
  }

  lemma NoStraddleAtPyTail()
    ensures NoStraddle("atoms.my", ".py")
  {
    var a := "atoms.my";
    forall k | 0 < k < 3 && k <= |a| ensures a[|a| - k..] != ".py"[..k] {
      assert a[|a| - k..][0] != ".py"[..k][0];
    }
  }

  // ---------------------------------------------------------------------
  // The registry

  /** What `inspect.getmembers` reports for one name of the module. */
  datatype MemberValue =
    | AtomSubclass(kind: AtomKind)  // a class derived from `Atom`, behaving as `kind`
    | AtomBase                      // the `Atom` base class itself
    | OtherClass                    // a class unrelated to `Atom`
    | NotAValueClass                // anything that is not a class
  datatype Member = Member(name: string, value: MemberValue)

  /** An instance created by `obj()`. */
  datatype Instance = Instance(className: string, kind: AtomKind)

  datatype Entry = Entry(key: Pattern, atom: Instance)
  /** A dict from patterns to instances, in key insertion order. */
  type Registry = seq<Entry>

  function Keys(reg: Registry): (ks: seq<Pattern>)
    ensures |ks| == |reg| && forall i | 0 <= i < |reg| :: ks[i] == reg[i].key
  {
    seq(|reg|, i requires 0 <= i < |reg| => reg[i].key)
  }

  /** `reg.get(key)`. */
  function Get(reg: Registry, key: Pattern): Option<Instance>
    decreases |reg|
  {
    if reg == [] then None
    else if reg[0].key == key then Some(reg[0].atom)
    else Get(reg[1..], key)
  }

  predicate DistinctKeys(reg: Registry) {
    forall i, j | 0 <= i < j < |reg| :: reg[i].key != reg[j].key
  }

  /** `reg[key] = atom`: an existing key keeps its place and takes the new
      value; a new key goes at the end. */
  function Put(reg: Registry, key: Pattern, atom: Instance): Registry
    decreases |reg|
  {
    if reg == [] then [Entry(key, atom)]
    else if reg[0].key == key then [Entry(key, atom)] + reg[1..]
    else [reg[0]] + Put(reg[1..], key, atom)
  }

  lemma {:induction false} KeysOfTail(reg: Registry)
    requires reg != []
    ensures Keys(reg) == [reg[0].key] + Keys(reg[1..])
  {
  }

  /** Assignment into a dict: the key now holds the new value, every other
      key keeps its own; the keys keep their order, and a new key is added
      last. */
  lemma {:induction false} PutSpec(reg: Registry, key: Pattern, atom: Instance)
    requires DistinctKeys(reg)
    ensures DistinctKeys(Put(reg, key, atom))
    ensures Get(Put(reg, key, atom), key) == Some(atom)
    ensures forall k | k != key :: Get(Put(reg, key, atom), k) == Get(reg, k)
    ensures Keys(Put(reg, key, atom)) == if key in Keys(reg) then Keys(reg) else Keys(reg) + [key]
    decreases |reg|
  {
    if reg != [] {
      KeysOfTail(reg);
      var r := Put(reg, key, atom);
      KeysOfTail(r);
      if reg[0].key != key {
        PutSpec(reg[1..], key, atom);
        assert r[1..] == Put(reg[1..], key, atom);
        assert key in Keys(reg) <==> key in Keys(reg[1..]);
        DistinctCons(r, reg);
      } else {
        assert r[1..] == reg[1..];
        forall k | k != key ensures Get(r, k) == Get(reg, k) {}
      }
    }
  }

  /** The head of `r` is the head of `reg`, and every later key of `r` is a
      later key of `reg` or a key not in `reg`: then `r` has distinct keys. */
  lemma DistinctCons(r: Registry, reg: Registry)
    requires reg != [] && r != [] && r[0].key == reg[0].key
    requires DistinctKeys(reg) && DistinctKeys(r[1..])
    requires forall j | 1 <= j < |r| :: r[j].key in Keys(reg[1..]) || r[j].key !in Keys(reg)
    ensures DistinctKeys(r)
  {
    forall i, j | 0 <= i < j < |r| ensures r[i].key != r[j].key {
      if i == 0 {
        if r[j].key in Keys(reg[1..]) {
          var m :| 0 <= m < |reg[1..]| && Keys(reg[1..])[m] == r[j].key;
          assert reg[m + 1].key == r[j].key;
        } else {
          assert Keys(reg)[0] == r[0].key;
        }
      } else {
        assert r[i].key == r[1..][i - 1].key && r[j].key == r[1..][j - 1].key;
      }
    }
  }

  lemma {:induction false} GetPresent(reg: Registry, key: Pattern)
    ensures Get(reg, key).Some? <==> key in Keys(reg)
    decreases |reg|
  {
    if reg != [] {
      KeysOfTail(reg);
      GetPresent(reg[1..], key);
    }
  }

  predicate IsAtomClass(v: MemberValue) { v.AtomSubclass? }

  /** The dict `load_atoms` builds from the members, in the order visited:
      `return_dict[instance.get_regex()] = instance` for each proper
      subclass of `Atom`; every other member is skipped. */
  function Registered(members: seq<Member>): Registry
    decreases |members|
  {
    if members == [] then []
    else
      var reg := Registered(members[..|members| - 1]);
      var m := members[|members| - 1];
      if IsAtomClass(m.value) then Put(reg, PatternOf(m.value.kind), Instance(m.name, m.value.kind)) else reg
  }

  /** `load_atoms`: the module the normalised name refers to is imported
      and its members, as `inspect.getmembers` lists them (sorted by name),
      are visited one by one. */
  method LoadAtoms(atomsFile: string, getMembers: string -> seq<Member>) returns (registry: Registry)
    ensures registry == Registered(getMembers(FormatFileName(atomsFile)))
  {
    var moduleName := FormatFileName(atomsFile);
    var members := getMembers(moduleName);
    registry := [];
    var i := 0;
    while i < |members|
      invariant 0 <= i <= |members|
      invariant registry == Registered(members[..i])
    {
      var member := members[i];
      assert members[..i + 1][..i] == members[..i];
      if member.value.AtomSubclass? {
        var instance := Instance(member.name, member.value.kind);
        registry := Put(registry, PatternOf(instance.kind), instance);
      }
      i := i + 1;
    }
    assert members[..i] == members;
  }

  // Reference definitions for what the registry holds.

  /** The keys of the atom members, one per atom member, in visiting order. */
  function AtomKeys(members: seq<Member>): (ks: seq<Pattern>)
    decreases |members|
  {
    if members == [] then []
    else
      var m := members[|members| - 1];
      AtomKeys(members[..|members| - 1]) + (if IsAtomClass(m.value) then [PatternOf(m.value.kind)] else [])
  }

  /** `s` with each element kept at its first occurrence only. */
  function FirstOccurrences(s: seq<Pattern>): seq<Pattern>
    decreases |s|
  {
    if s == [] then []
    else
      var d := FirstOccurrences(s[..|s| - 1]);
      if s[|s| - 1] in s[..|s| - 1] then d else d + [s[|s| - 1]]
  }

  /** The instance of the last atom member, in visiting order, whose
      pattern is `key`. */
  function LastWith(members: seq<Member>, key: Pattern): Option<Instance>
    decreases |members|
  {
    if members == [] then None
    else
      var m := members[|members| - 1];
      if IsAtomClass(m.value) && PatternOf(m.value.kind) == key then Some(Instance(m.name, m.value.kind))
      else LastWith(members[..|members| - 1], key)
  }

  lemma {:induction false} FirstOccurrencesSpec(s: seq<Pattern>)
    ensures forall i, j | 0 <= i < j < |FirstOccurrences(s)| :: FirstOccurrences(s)[i] != FirstOccurrences(s)[j]
    ensures forall x :: x in FirstOccurrences(s) <==> x in s
    ensures |FirstOccurrences(s)| == |set x | x in s|
    decreases |s|
  {
    if s != [] {
      var init, last := s[..|s| - 1], s[|s| - 1];
      FirstOccurrencesSpec(init);
      assert s == init + [last];
      var d := FirstOccurrences(init);
      if last in init {
        assert (set x | x in s) == (set x | x in init);
      } else {
        assert (set x | x in s) == (set x | x in init) + {last};
        assert last !in d;
      }
    }
  }

  /** Everything `load_atoms` promises of its dict: the keys are distinct
      and appear in the order of their first registration; each key holds
      the instance of the last atom member registered under it, and only
      keys of atom members are present; every stored instance is filed
      under its own pattern; so the number of entries is the number of
      distinct patterns among the atom members. */
  lemma RegisteredSpec(members: seq<Member>)
    ensures DistinctKeys(Registered(members))
    ensures Keys(Registered(members)) == FirstOccurrences(AtomKeys(members))
    ensures forall key :: Get(Registered(members), key) == LastWith(members, key)
    ensures forall i | 0 <= i < |Registered(members)| ::
      Registered(members)[i].key == PatternOf(Registered(members)[i].atom.kind)
    ensures |Registered(members)| == |set key | key in AtomKeys(members)|
  {
    RegisteredKeys(members);
    RegisteredValues(members);
    RegisteredFiled(members);
    FirstOccurrencesSpec(AtomKeys(members));
  }

  /** One more member: an atom member is put under its pattern, any other
      member is skipped. */
  lemma RegisteredStep(members: seq<Member>)
    requires members != []
    ensures var init, m := members[..|members| - 1], members[|members| - 1];
      && (IsAtomClass(m.value) ==>
            && Registered(members) == Put(Registered(init), PatternOf(m.value.kind), Instance(m.name, m.value.kind))
            && AtomKeys(members) == AtomKeys(init) + [PatternOf(m.value.kind)])
      && (!IsAtomClass(m.value) ==> Registered(members) == Registered(init) && AtomKeys(members) == AtomKeys(init))
  {
  }

  lemma {:induction false} RegisteredKeys(members: seq<Member>)
    ensures DistinctKeys(Registered(members))
    ensures Keys(Registered(members)) == FirstOccurrences(AtomKeys(members))
    decreases |members|
  {
    if members != [] {
      var init, m := members[..|members| - 1], members[|members| - 1];
      RegisteredKeys(init);
      RegisteredStep(members);
      if IsAtomClass(m.value) {
        var key := PatternOf(m.value.kind);
        PutSpec(Registered(init), key, Instance(m.name, m.value.kind));
        FirstOccurrencesSpec(AtomKeys(init));
        FirstOccurrencesStep(AtomKeys(init), key);
      }
    }
  }

  lemma FirstOccurrencesStep(s: seq<Pattern>, x: Pattern)
    requires forall y :: y in FirstOccurrences(s) <==> y in s
    ensures FirstOccurrences(s + [x]) == if x in FirstOccurrences(s) then FirstOccurrences(s) else FirstOccurrences(s) + [x]
  {
    assert (s + [x])[..|s|] == s;
  }

  lemma {:induction false} RegisteredValues(members: seq<Member>)
    ensures forall key :: Get(Registered(members), key) == LastWith(members, key)
    decreases |members|
  {
    if members != [] {
      var init, m := members[..|members| - 1], members[|members| - 1];
      RegisteredValues(init);
      RegisteredStep(members);
      if IsAtomClass(m.value) {
        var reg := Registered(init);
        RegisteredKeys(init);
        PutSpec(reg, PatternOf(m.value.kind), Instance(m.name, m.value.kind));
      }
    }
  }

  lemma {:induction false} RegisteredFiled(members: seq<Member>)
    ensures forall i | 0 <= i < |Registered(members)| ::
      Registered(members)[i].key == PatternOf(Registered(members)[i].atom.kind)
    decreases |members|
  {
    if members != [] {
      var init, m := members[..|members| - 1], members[|members| - 1];
      RegisteredFiled(init);
      RegisteredStep(members);
      if IsAtomClass(m.value) {
        PutKeepsFiling(Registered(init), PatternOf(m.value.kind), Instance(m.name, m.value.kind));
      }
    }
  }

  lemma {:induction false} PutKeepsFiling(reg: Registry, key: Pattern, atom: Instance)
    requires forall i | 0 <= i < |reg| :: reg[i].key == PatternOf(reg[i].atom.kind)
    requires key == PatternOf(atom.kind)
    ensures forall i | 0 <= i < |Put(reg, key, atom)| ::
      Put(reg, key, atom)[i].key == PatternOf(Put(reg, key, atom)[i].atom.kind)
    decreases |reg|
  {
    if reg != [] && reg[0].key != key {
      PutKeepsFiling(reg[1..], key, atom);
      assert forall i | 1 <= i < |Put(reg, key, atom)| :: Put(reg, key, atom)[i] == Put(reg[1..], key, atom)[i - 1];
    }
  }

  /** Only proper subclasses are registered: a module holding no subclass of
      `Atom` (the base class, other classes and other values) yields an
      empty dict. */
  lemma {:induction false} OnlySubclassesRegistered(members: seq<Member>)
    requires forall i | 0 <= i < |members| :: !IsAtomClass(members[i].value)
    ensures Registered(members) == []
    decreases |members|
  {
    if members != [] {
      OnlySubclassesRegistered(members[..|members| - 1]);
    }
  }
}
