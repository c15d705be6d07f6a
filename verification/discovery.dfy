/**
 How the `configuration/startouts` and `tools` packages find their modules
 (configuration/startouts/__init__.py, tools/__init__.py): `__all__` is
 every file of the package directory, in listing order, that ends in `.py`
 and does not start with `_`, with the `.py` cut off; the tools package
 then imports each of those modules and joins their `exports` lists.

 The directory listing is a parameter; so is what importing a module
 yields: its `exports` list, or `None` when the module has no `exports`
 and the attribute lookup fails.
 */
module ModuleDiscovery {
  import opened Values
  import opened PyStrings

  const Suffix := ".py"

  /** `f.endswith('.py') and not f.startswith('_')`. */
  predicate IsModuleFile(f: string) {
    EndsWith(f, Suffix) && !StartsWith(f, "_")
  }

  /** `f[:-3]` for a name that ends in `.py`. */
  function ModuleName(f: string): string
    requires EndsWith(f, Suffix)
  {
    f[..|f| - |Suffix|]
  }

  /** The `__all__` comprehension. */
  function ModuleNames(files: seq<string>): seq<string>
    decreases |files|
  {
    if files == [] then []
    else (if IsModuleFile(files[0]) then [ModuleName(files[0])] else []) + ModuleNames(files[1..])
  }

  /** Every name comes from a listed module file, `name + ".py"` being that
      file; every module file gives its name; there are no more names than
      files. */
  lemma {:induction false} ModuleNamesExact(files: seq<string>)
    ensures forall n :: n in ModuleNames(files) ==> n + Suffix in files && IsModuleFile(n + Suffix)
    ensures forall f :: f in files && IsModuleFile(f) ==> ModuleName(f) in ModuleNames(files)
    ensures |ModuleNames(files)| <= |files|
    decreases |files|
  {
    if files != [] {
      ModuleNamesExact(files[1..]);
      var f := files[0];
      if IsModuleFile(f) {
        assert ModuleName(f) + Suffix == f;
      }
      assert forall g :: g in files ==> g == f || g in files[1..];
    }
  }

  /** The package's own `__init__.py` never yields a name. */
  lemma InitNeverListed(files: seq<string>)
    ensures "__init__" !in ModuleNames(files)
  {
    ModuleNamesExact(files);
    assert StartsWith("__init__" + Suffix, "_");
  }

  /** Names keep the listing order: the names of a split listing are the
      names of its parts, in order. */
  lemma {:induction false} ModuleNamesConcat(a: seq<string>, b: seq<string>)
    ensures ModuleNames(a + b) == ModuleNames(a) + ModuleNames(b)
    decreases |a|
  {
    if a != [] {
      var head := if IsModuleFile(a[0]) then [ModuleName(a[0])] else [];
      assert (a + b)[0] == a[0];
      assert (a + b)[1..] == a[1..] + b;
      ModuleNamesConcat(a[1..], b);
      assert ModuleNames(a + b) == head + ModuleNames(a[1..] + b);
      assert ModuleNames(a) == head + ModuleNames(a[1..]);
    } else {
      assert a + b == b;
    }
  }

  /** The loop of tools/__init__.py: imports each module of `__all__` in order
      and extends `exports` with its `exports`; `None` for the
      `AttributeError` of a module without one. */
  function Exports<T>(names: seq<string>, load: string -> Option<seq<T>>): Option<seq<T>>
    decreases |names|
  {
    if names == [] then Some([])
    else
      match Exports(names[..|names| - 1], load)
      case None => None
      case Some(before) =>
        match load(names[|names| - 1])
        case None => None
        case Some(more) => Some(before + more)
  }

  /** What each module of `names` exports, in order. */
  function Loaded<T>(names: seq<string>, load: string -> Option<seq<T>>): (r: seq<seq<T>>)
    requires forall n :: n in names ==> load(n).Some?
    ensures |r| == |names| && forall i :: 0 <= i < |names| ==> r[i] == load(names[i]).value
  {
    seq(|names|, i requires 0 <= i < |names| => load(names[i]).value)
  }

  /** The total length of a list of lists, one list at a time. */
  function TotalLength<T>(ss: seq<seq<T>>): nat
    decreases |ss|
  {
    if ss == [] then 0 else |ss[0]| + TotalLength(ss[1..])
  }

  /** Importing fails exactly when some module has no `exports`; otherwise
      `exports` is the modules' lists joined in `__all__` order. */
  lemma {:induction false} ExportsJoin<T>(names: seq<string>, load: string -> Option<seq<T>>)
    ensures Exports(names, load).Some? <==> forall n :: n in names ==> load(n).Some?
    ensures Exports(names, load).Some? ==> Exports(names, load).value == Concat(Loaded(names, load))
    decreases |names|
  {
    if names != [] {
      var front := names[..|names| - 1];
      ExportsJoin(front, load);
      assert forall n :: n in names <==> n in front || n == names[|names| - 1];
      if Exports(names, load).Some? {
        assert Loaded(names, load)[..|names| - 1] == Loaded(front, load);
      }
    }
  }

  lemma {:induction false} TotalLengthBack<T>(ss: seq<seq<T>>)
    requires ss != []
    ensures TotalLength(ss) == TotalLength(ss[..|ss| - 1]) + |ss[|ss| - 1]|
    decreases |ss|
  {
    if |ss| > 1 {
      TotalLengthBack(ss[1..]);
      assert ss[1..][..|ss| - 2] == ss[..|ss| - 1][1..];
    }
  }

  /** The joined list is as long as all the lists together. */
  lemma {:induction false} ConcatLength<T>(ss: seq<seq<T>>)
    ensures |Concat(ss)| == TotalLength(ss)
    decreases |ss|
  {
    if ss != [] {
      ConcatLength(ss[..|ss| - 1]);
      TotalLengthBack(ss);
    }
  }

  /** When every module has `exports`, the joined list is as long as all of
      them together. */
  lemma ExportsLength<T>(names: seq<string>, load: string -> Option<seq<T>>)
    requires forall n :: n in names ==> load(n).Some?
    ensures Exports(names, load).Some?
    ensures |Exports(names, load).value| == TotalLength(Loaded(names, load))
  {
    ExportsJoin(names, load);
    ConcatLength(Loaded(names, load));
  }
}
