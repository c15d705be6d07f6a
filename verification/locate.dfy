/**
 `locate_attribute` (src/lib/util/locateutils.py): the first module file,
 in `__all__` order, that defines a truthy attribute of the given name.

 Each file is its name in `__all__` with the attributes it defines.
 Whether a value is truthy is a parameter, since the attribute values are
 whatever the files define.
 */
module Locate {
  import opened Values

  datatype SourceFile<V> = SourceFile(name: string, attributes: map<string, V>)

  /** `getattr(file, attribute, None)` is truthy. */
  predicate Provides<V>(f: SourceFile<V>, attribute: string, truthy: V -> bool) {
    attribute in f.attributes && truthy(f.attributes[attribute])
  }

  predicate IsFirstProvider<V>(files: seq<SourceFile<V>>, i: int, attribute: string, truthy: V -> bool) {
    && 0 <= i < |files|
    && Provides(files[i], attribute, truthy)
    && forall j :: 0 <= j < i ==> !Provides(files[j], attribute, truthy)
  }

  /** Returns `(value, file name)` from the first file providing the
      attribute, or `None` for Python's `(None, None)`. */
  function LocateAttribute<V(==)>(files: seq<SourceFile<V>>, attribute: string, truthy: V -> bool): (r: Option<(V, string)>)
    ensures r.None? <==> forall i :: 0 <= i < |files| ==> !Provides(files[i], attribute, truthy)
    ensures r.Some? ==>
      exists i :: IsFirstProvider(files, i, attribute, truthy) && r.value == (files[i].attributes[attribute], files[i].name)
    ensures r.Some? ==> truthy(r.value.0)
  {
    if files == [] then None
    else if Provides(files[0], attribute, truthy) then
      assert IsFirstProvider(files, 0, attribute, truthy);
      Some((files[0].attributes[attribute], files[0].name))
    else
      var rest := LocateAttribute(files[1..], attribute, truthy);
      if rest.Some? then
        var i :| IsFirstProvider(files[1..], i, attribute, truthy) && rest.value == (files[1..][i].attributes[attribute], files[1..][i].name);
        assert IsFirstProvider(files, i + 1, attribute, truthy);
        rest
      else
        assert forall i :: 1 <= i < |files| ==> files[i] == files[1..][i - 1];
        rest
  }

  /** Files after the first one that provides the attribute are never
      consulted: appending files cannot change the answer. */
  lemma {:induction false} LaterFilesIgnored<V>(files: seq<SourceFile<V>>, later: seq<SourceFile<V>>, attribute: string, truthy: V -> bool)
    requires exists i :: 0 <= i < |files| && Provides(files[i], attribute, truthy)
    ensures LocateAttribute(files + later, attribute, truthy) == LocateAttribute(files, attribute, truthy)
  {
    if !Provides(files[0], attribute, truthy) {
      var i :| 0 <= i < |files| && Provides(files[i], attribute, truthy);
      assert files[1..][i - 1] == files[i];
      LaterFilesIgnored(files[1..], later, attribute, truthy);
      assert (files + later)[1..] == files[1..] + later;
    }
  }
}
