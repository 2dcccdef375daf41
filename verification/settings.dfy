/**
 * Key matching of the Zephyr settings subsystem as used by the mesh stack
 * (mesh/zephyr/subsys/settings/src/settings.c). Names are C strings: a
 * `seq<char>` read through `At`, which yields NUL past the end, so a name
 * ends at its first NUL. A `const char *` into a name is an offset into
 * it, and `NULL` is `None`.
 */
module Settings {
  import opened Wrappers

  /** `SETTINGS_NAME_SEPARATOR` and `SETTINGS_NAME_END` of Zephyr's
      settings API. */
  const SEPARATOR: char := '/'
  const NAME_END: char := '='

  /** The character a C pointer to offset `i` of `s` reads. */
  function At(s: seq<char>, i: nat): char
  {
    if i < |s| then s[i] else '\0'
  }

  /** The length of `s` as a C string: the offset of its first NUL. */
  function CLen(s: seq<char>): (n: nat)
    ensures n <= |s| && At(s, n) == '\0'
    ensures forall j :: 0 <= j < n ==> s[j] != '\0'
    decreases |s|
  {
    if s == [] || s[0] == '\0' then 0 else 1 + CLen(s[1..])
  }

  /** The match `settings_name_steq` looks for: `key` is a prefix of `name`
      that does not run over a `=`, and `name` continues with the separator,
      `=` or its end. */
  predicate Steq(name: seq<char>, key: seq<char>)
  {
    var k := CLen(key);
    (forall j :: 0 <= j < k ==> At(name, j) == key[j] && key[j] != NAME_END)
    && At(name, k) in {SEPARATOR, NAME_END, '\0'}
  }

  /** Where `*next` points after a match: just past the separator, when the
      separator is what followed the key. */
  function SteqNext(name: seq<char>, key: seq<char>): Option<nat>
  {
    if Steq(name, key) && At(name, CLen(key)) == SEPARATOR then Some(CLen(key) + 1) else None
  }

  /** `settings_name_steq`. */
  method NameSteq(name: Option<seq<char>>, key: Option<seq<char>>) returns (r: int, next: Option<nat>)
    ensures name.None? || key.None? ==> r == 0 && next == None
    ensures name.Some? && key.Some? ==>
      (r == 1 <==> Steq(name.value, key.value)) && next == SteqNext(name.value, key.value)
    ensures r == 0 || r == 1
  {
    next := None;
    if name.None? || key.None? {
      return 0, None;
    }
    var n, k := name.value, key.value;
    var i := 0;
    while At(k, i) != '\0' && At(k, i) == At(n, i) && At(n, i) != '\0' && At(n, i) != NAME_END
      invariant i <= CLen(k)
      invariant forall j :: 0 <= j < i ==> At(n, j) == k[j] && k[j] != NAME_END
      decreases |k| - i
    {
      i := i + 1;
    }
    if At(k, i) != '\0' {
      return 0, None;
    }
    assert i == CLen(k);
    if At(n, i) == SEPARATOR {
      return 1, Some(i + 1);
    }
    if At(n, i) == NAME_END || At(n, i) == '\0' {
      return 1, None;
    }
    return 0, None;
  }

  /** The length of the first segment of `name`: the characters before the
      first NUL, `=` or separator. */
  function SegmentLen(name: seq<char>): (n: nat)
    ensures n <= |name|
    ensures At(name, n) in {'\0', NAME_END, SEPARATOR}
    ensures forall j :: 0 <= j < n ==> name[j] !in {'\0', NAME_END, SEPARATOR}
    decreases |name|
  {
    if name == [] || name[0] in {'\0', NAME_END, SEPARATOR} then 0 else 1 + SegmentLen(name[1..])
  }

  /** `settings_name_next`. */
  method NameNext(name: Option<seq<char>>) returns (rc: int, next: Option<nat>)
    ensures name.None? ==> rc == 0 && next == None
    ensures name.Some? ==> rc == SegmentLen(name.value)
    ensures name.Some? ==> next == if At(name.value, rc) == SEPARATOR then Some(rc + 1) else None
  {
    next := None;
    if name.None? {
      return 0, None;
    }
    var n := name.value;
    rc := 0;
    while At(n, rc) != '\0' && At(n, rc) != NAME_END && At(n, rc) != SEPARATOR
      invariant 0 <= rc <= SegmentLen(n) <= |n|
      invariant forall j :: 0 <= j < rc ==> n[j] !in {'\0', NAME_END, SEPARATOR}
      decreases |n| - rc
    {
      rc := rc + 1;
    }
    if At(n, rc) == SEPARATOR {
      next := Some(rc + 1);
    }
  }

  /** The first segment of a name, used as a key, matches the name and
      `steq` then points `next` where `name_next` does. */
  lemma SegmentMatches(name: seq<char>)
    ensures Steq(name, name[..SegmentLen(name)])
    ensures SteqNext(name, name[..SegmentLen(name)])
         == if At(name, SegmentLen(name)) == SEPARATOR then Some(SegmentLen(name) + 1) else None
  {
    var n := SegmentLen(name);
    var key := name[..n];
    assert CLen(key) == n by {
      CLenOfClean(key);
    }
  }

  lemma {:induction false} CLenOfClean(s: seq<char>)
    requires forall j :: 0 <= j < |s| ==> s[j] != '\0'
    ensures CLen(s) == |s|
    decreases |s|
  {
    if s != [] {
      CLenOfClean(s[1..]);
    }
  }

  /** `settings_parse_and_lookup` with the one registered handler, named
      `handlerName`: found iff its name matches, with `next` as `steq` set
      it; otherwise NULL and no next. */
  method ParseAndLookup(name: Option<seq<char>>, handlerName: seq<char>) returns (found: bool, next: Option<nat>)
    ensures found <==> name.Some? && Steq(name.value, handlerName)
    ensures next == if found then SteqNext(name.value, handlerName) else None
  {
    var r, tmpnext := NameSteq(name, Some(handlerName));
    if r == 0 {
      return false, None;
    }
    return true, tmpnext;
  }

  /** The `settings_load_arg` a load runs with: an optional subtree and
      whether a direct callback is installed. */
  datatype LoadArg = LoadArg(subtree: Option<seq<char>>, hasCb: bool)

  /** Which external callback `settings_call_set_handler` invoked, and with
      which key pointer (an offset into the name, or NULL). */
  datatype SetCall = NoCall | LoadCallback(key: Option<nat>) | HandlerSet(key: Option<nat>)

  /**
   * `settings_call_set_handler`. The callbacks' own return codes are the
   * inputs `cbResult` and `setResult`; `len`, the read callback and its
   * argument are passed through untouched and are not modelled.
   */
  method CallSetHandler(name: Option<seq<char>>, loadArg: Option<LoadArg>, handlerName: seq<char>,
                        cbResult: int, setResult: int)
    returns (rc: int, call: SetCall)
    ensures loadArg.Some? && loadArg.value.subtree.Some?
            && !(name.Some? && Steq(name.value, loadArg.value.subtree.value))
            ==> rc == 0 && call == NoCall
    ensures loadArg.Some? && loadArg.value.subtree.None? && loadArg.value.hasCb
            ==> rc == cbResult && call == LoadCallback(if name.Some? then Some(0) else None)
    ensures loadArg.Some? && loadArg.value.subtree.Some? && name.Some?
            && Steq(name.value, loadArg.value.subtree.value) && loadArg.value.hasCb
            ==> rc == cbResult && call == LoadCallback(SteqNext(name.value, loadArg.value.subtree.value))
    ensures call.HandlerSet? ==> rc == 0 && name.Some? && call.key == SteqNext(name.value, handlerName)
    ensures !(loadArg.Some? && loadArg.value.hasCb) && !(name.Some? && Steq(name.value, handlerName)) ==> rc == 0 && call == NoCall
    ensures !(loadArg.Some? && loadArg.value.hasCb)
            && (loadArg.Some? && loadArg.value.subtree.Some? ==> name.Some? && Steq(name.value, loadArg.value.subtree.value))
            && name.Some? && Steq(name.value, handlerName)
            ==> rc == 0 && call == HandlerSet(SteqNext(name.value, handlerName))
  {
    var nameKey: Option<nat> := if name.Some? then Some(0) else None;
    if loadArg.Some? && loadArg.value.subtree.Some? {
      var r, k := NameSteq(name, loadArg.value.subtree);
      nameKey := k;
      if r == 0 {
        return 0, NoCall;
      }
    }
    if loadArg.Some? && loadArg.value.hasCb {
      return cbResult, LoadCallback(nameKey);
    }
    var found, k := ParseAndLookup(name, handlerName);
    if !found {
      return 0, NoCall;
    }
    // A non-zero result of the handler is logged and ignored.
    rc := setResult;
    if rc != 0 {
      rc := 0;
    }
    call := HandlerSet(k);
  }
}
