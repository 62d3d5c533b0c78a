/**
 * Configuration data: JSON values addressed by '/'-separated key paths,
 * and the `Config` object that holds one file's values. Reading and
 * writing files is left to the caller: a read is given the parsed file
 * contents.
 */
module Config {
  import opened Wrappers
  import opened StringUtils

  /** Plain-old JSON data as Python holds it: a dictionary, None, or any other value. */
  datatype Json = Dict(entries: map<string, Json>) | Null | Scalar(text: string)

  /** The non-empty strings of `parts`, in order. */
  function NonEmpty(parts: seq<string>): (r: seq<string>)
    ensures forall k :: 0 <= k < |r| ==> |r[k]| > 0
    ensures forall x :: x in r <==> x in parts && |x| > 0
    ensures (forall k :: 0 <= k < |parts| ==> |parts[k]| > 0) ==> r == parts
  {
    if |parts| == 0 then []
    else (if |parts[0]| > 0 then [parts[0]] else []) + NonEmpty(parts[1..])
  }

  /** `_split_key`: the key split on '/', empty parts dropped. */
  function SplitKey(key: string): (keys: seq<string>)
    ensures forall k :: 0 <= k < |keys| ==> |keys[k]| > 0 && '/' !in keys[k]
  {
    var parts := Split(key, '/');
    assert forall x :: x in NonEmpty(parts) ==> x in parts;
    NonEmpty(parts)
  }

  /** Joining non-empty, '/'-free names with '/' gives a key that splits back into them. */
  lemma SplitKeyOfJoin(keys: seq<string>)
    requires |keys| >= 1
    requires forall k :: 0 <= k < |keys| ==> |keys[k]| > 0 && '/' !in keys[k]
    ensures SplitKey(Join(keys, '/')) == keys
  {
    SplitOfJoin(keys, '/');
  }

  /** The value at a key path, stepping through nested dictionaries. */
  function Lookup(d: Json, keys: seq<string>): Option<Json>
  {
    if |keys| == 0 then Some(d)
    else if d.Dict? && keys[0] in d.entries then Lookup(d.entries[keys[0]], keys[1..])
    else None
  }

  /** `exists`: every step of the key path is present; an empty key always exists. */
  method Exists(data: Json, key: string) returns (ok: bool)
    ensures ok <==> Lookup(data, SplitKey(key)).Some?
  {
    var keyList := SplitKey(key);
    var d := data;
    ok := true;
    var i := 0;
    while i < |keyList|
      invariant i <= |keyList|
      invariant Lookup(data, keyList) == Lookup(d, keyList[i..])
    {
      var k := keyList[i];
      assert keyList[i..][0] == k && keyList[i..][1..] == keyList[i + 1..];
      if !(d.Dict? && k in d.entries) {
        ok := false;
        break;
      }
      d := d.entries[k];
      i := i + 1;
    }
  }

  /** `get_value`: the value at the key path, or `defaultValue` when the path is absent. */
  method GetValue(data: Json, key: string, defaultValue: Json) returns (value: Json)
    ensures Lookup(data, SplitKey(key)).Some? ==> value == Lookup(data, SplitKey(key)).value
    ensures Lookup(data, SplitKey(key)).None? ==> value == defaultValue
  {
    var found := Exists(data, key);
    if !found {
      return defaultValue;
    }
    var keyList := SplitKey(key);
    var d := data;
    var i := 0;
    while i < |keyList|
      invariant i <= |keyList|
      invariant Lookup(data, keyList) == Lookup(d, keyList[i..])
    {
      var k := keyList[i];
      assert keyList[i..][0] == k && keyList[i..][1..] == keyList[i + 1..];
      if !(d.Dict? && k in d.entries) {
        break;
      }
      d := d.entries[k];
      i := i + 1;
    }
    value := d;
  }

  /** The value nested under the key path: `value` itself for an empty path. */
  function Nested(keys: seq<string>, value: Json): Json
  {
    if |keys| == 0 then value else Dict(map[keys[0] := Nested(keys[1..], value)])
  }

  /** The update dictionary `set_value` builds: empty for an empty path. */
  function UpdateFor(keys: seq<string>, value: Json): Json
  {
    if |keys| == 0 then Dict(map[]) else Nested(keys, value)
  }

  /**
   * Whether `_recursive_update(d, u)` completes: where `u` holds a
   * dictionary over an existing value, that value is a dictionary the
   * update completes on, or the dictionary is empty and nothing is
   * assigned into it.
   */
  predicate Mergeable(d: map<string, Json>, u: Json)
    decreases u
  {
    u.Dict? ==> forall k :: k in u.entries && u.entries[k].Dict? && k in d ==>
      (d[k].Dict? && Mergeable(d[k].entries, u.entries[k])) || (!d[k].Dict? && |u.entries[k].entries| == 0)
  }

  /** `_recursive_update`: `u`'s entries over `d`'s, dictionaries merged level by level. */
  function Merge(d: map<string, Json>, u: Json): map<string, Json>
    requires u.Dict? && Mergeable(d, u)
    decreases u
  {
    map k | k in d.Keys + u.entries.Keys ::
      if k !in u.entries then d[k]
      else if !u.entries[k].Dict? then u.entries[k]
      else if k !in d then Dict(Merge(map[], u.entries[k]))
      else if d[k].Dict? then Dict(Merge(d[k].entries, u.entries[k]))
      else d[k]
  }

  /** The loop of `set_value` that wraps the value in one dictionary per key, innermost first. */
  method BuildUpdate(keyList: seq<string>, value: Json) returns (update: Json)
    ensures update == UpdateFor(keyList, value)
  {
    var n := |keyList|;
    var dataValue: map<string, Json> := map[];
    var i := 0;
    while i < n
      invariant i <= n
      invariant i == 0 ==> dataValue == map[]
      invariant i > 0 ==> Dict(dataValue) == Nested(keyList[n - i..], value)
    {
      var k := keyList[n - 1 - i];
      assert keyList[n - 1 - i..][0] == k && keyList[n - 1 - i..][1..] == keyList[n - i..];
      if i == 0 {
        assert Nested(keyList[n - 1..], value) == Dict(map[k := value]) by {
          assert keyList[n - 1..][1..] == [];
        }
        dataValue := map[k := value];
      } else {
        var tmp := dataValue;
        assert Nested(keyList[n - 1 - i..], value) == Dict(map[k := Nested(keyList[n - i..], value)]);
        dataValue := map[k := Dict(tmp)];
      }
      i := i + 1;
    }
    assert keyList[0..] == keyList;
    update := Dict(dataValue);
  }

  /** `set_value` on a dictionary: the copy with the nested update merged in. */
  method SetValue(data: map<string, Json>, key: string, value: Json) returns (result: map<string, Json>)
    requires Mergeable(data, UpdateFor(SplitKey(key), value))
    ensures result == Merge(data, UpdateFor(SplitKey(key), value))
  {
    var keyList := SplitKey(key);
    var dataValue := BuildUpdate(keyList, value);
    result := Merge(data, dataValue);
  }

  /** Every step of the path but the last is a dictionary or absent, so the update completes. */
  predicate PathOpen(d: map<string, Json>, keys: seq<string>)
    decreases |keys|
  {
    |keys| <= 1 || keys[0] !in d || (d[keys[0]].Dict? && PathOpen(d[keys[0]].entries, keys[1..]))
  }

  lemma {:induction false} PathOpenMergeable(d: map<string, Json>, keys: seq<string>, value: Json)
    requires |keys| >= 1 && PathOpen(d, keys) && !value.Dict?
    ensures Mergeable(d, Nested(keys, value))
    decreases |keys|
  {
    if |keys| > 1 && keys[0] in d {
      PathOpenMergeable(d[keys[0]].entries, keys[1..], value);
    }
  }

  lemma {:induction false} MergeAbsentMergeable(keys: seq<string>, value: Json)
    ensures Mergeable(map[], Nested(keys, value))
  {
  }

  /** Merging into an empty dictionary gives the nested value back. */
  lemma {:induction false} MergeIntoEmpty(keys: seq<string>, value: Json)
    requires |keys| >= 1 && !value.Dict?
    ensures Lookup(Dict(Merge(map[], Nested(keys, value))), keys) == Some(value)
  {
    var m := Merge(map[], Nested(keys, value));
    assert keys[0] in m;
    if |keys| > 1 {
      MergeAbsentMergeable(keys[1..], value);
      MergeIntoEmpty(keys[1..], value);
    }
  }

  /**
   * The set/get round trip: after setting a non-dictionary value at a
   * path whose steps are dictionaries or absent, the path holds it.
   */
  lemma {:induction false} GetAfterSet(d: map<string, Json>, keys: seq<string>, value: Json)
    requires |keys| >= 1 && PathOpen(d, keys) && !value.Dict?
    ensures Mergeable(d, Nested(keys, value))
    ensures Lookup(Dict(Merge(d, Nested(keys, value))), keys) == Some(value)
    decreases |keys|
  {
    PathOpenMergeable(d, keys, value);
    var m := Merge(d, Nested(keys, value));
    assert keys[0] in m;
    if |keys| > 1 {
      if keys[0] in d {
        GetAfterSet(d[keys[0]].entries, keys[1..], value);
      } else {
        MergeIntoEmpty(keys[1..], value);
      }
    }
  }

  /** Setting a value leaves every other top-level entry as it was. */
  lemma SetKeepsOtherKeys(d: map<string, Json>, keys: seq<string>, value: Json, other: string)
    requires |keys| >= 1 && other != keys[0]
    requires Mergeable(d, Nested(keys, value))
    ensures other in Merge(d, Nested(keys, value)) <==> other in d
    ensures other in d ==> Merge(d, Nested(keys, value))[other] == d[other]
  {
  }

  /** An empty key (or one of only '/' characters) leaves the data as it was. */
  lemma SetEmptyKeyKeepsData(d: map<string, Json>)
    ensures Mergeable(d, UpdateFor([], Null))
    ensures Merge(d, UpdateFor([], Null)) == d
  {
  }

  /** The values a `Config` holds count as empty: None, or a dictionary without entries. */
  predicate IsEmpty(v: Json)
  {
    v.Null? || (v.Dict? && |v.entries| == 0)
  }

  /** `Config`: a file path, its values, whether they changed since the last read or write, and the auto flags. */
  class Config {
    var filePath: string
    var values: Json
    var changed: bool
    var autoRead: bool
    var autoWrite: bool

    /** A config for `filePath` with no values, unchanged, reading automatically and not writing automatically. */
    constructor (filePath: string)
      ensures this.filePath == filePath && values == Dict(map[]) && !changed
      ensures autoRead && !autoWrite
    {
      this.filePath := filePath;
      values := Dict(map[]);
      changed := false;
      autoRead := true;
      autoWrite := false;
    }

    method SetAutoRead(value: bool)
      modifies this`autoRead
      ensures autoRead == value
    {
      autoRead := value;
    }

    method SetAutoWrite(value: bool)
      modifies this`autoWrite
      ensures autoWrite == value
    {
      autoWrite := value;
    }

    /** `set_file_path`: the same path changes nothing; a new path drops the values and the changed flag. */
    method SetFilePath(value: string)
      modifies this`filePath, this`values, this`changed
      ensures value == old(filePath) ==> filePath == old(filePath) && values == old(values) && changed == old(changed)
      ensures value != old(filePath) ==> filePath == value && values == Dict(map[]) && !changed
    {
      if value == filePath {
        return;
      }
      filePath := value;
      values := Dict(map[]);
      changed := false;
    }

    /** `read`, given the file's parsed contents (None for a missing file). */
    method Read(fileData: Json)
      modifies this`values, this`changed
      ensures values == fileData && !changed
    {
      values := fileData;
      changed := false;
    }

    /** `write`: the file is written elsewhere; the values count as unchanged. */
    method Write()
      modifies this`changed
      ensures !changed
    {
      changed := false;
    }

    /** Whether destroying the config writes it: auto-write is on and there are changes. */
    function WritesOnDestroy(): bool
      reads this
    {
      autoWrite && changed
    }

    /** `exists` on the config's values. */
    method ExistsKey(key: string) returns (ok: bool)
      ensures ok <==> Lookup(values, SplitKey(key)).Some?
    {
      ok := Exists(values, key);
    }

    /**
     * `get_value`: with auto-read on and no values, the file (given as
     * `fileData`) is read first; no values give `defaultValue`, otherwise
     * the value at the key path or `defaultValue`.
     */
    method GetConfigValue(key: string, defaultValue: Json, fileData: Json) returns (value: Json)
      modifies this`values, this`changed
      ensures old(autoRead) && IsEmpty(old(values)) ==> values == fileData && !changed
      ensures !(old(autoRead) && IsEmpty(old(values))) ==> values == old(values) && changed == old(changed)
      ensures IsEmpty(values) ==> value == defaultValue
      ensures !IsEmpty(values) && Lookup(values, SplitKey(key)).Some? ==> value == Lookup(values, SplitKey(key)).value
      ensures !IsEmpty(values) && Lookup(values, SplitKey(key)).None? ==> value == defaultValue
    {
      if autoRead && IsEmpty(values) {
        Read(fileData);
      }
      var data := values;
      if IsEmpty(data) {
        return defaultValue;
      }
      value := GetValue(data, key, defaultValue);
    }

    /** The dictionary `set_value` starts from: the values when they are a dictionary, else an empty one. */
    function BaseDict(): map<string, Json>
      reads this
    {
      if values.Dict? then values.entries else map[]
    }

    /**
     * `set_value`: the key's update is merged into a copy of the values and
     * the config is marked changed; when the update cannot complete
     * (`ok` false) the error leaves the config as it was.
     */
    method SetConfigValue(key: string, value: Json) returns (ok: bool)
      modifies this`values, this`changed
      ensures ok <==> Mergeable(old(BaseDict()), UpdateFor(SplitKey(key), value))
      ensures ok ==> values == Dict(Merge(old(BaseDict()), UpdateFor(SplitKey(key), value))) && changed
      ensures !ok ==> values == old(values) && changed == old(changed)
    {
      var data: map<string, Json> := map[];
      if values.Dict? {
        data := values.entries;
      }
      ok := Mergeable(data, UpdateFor(SplitKey(key), value));
      if !ok {
        return;
      }
      data := SetValue(data, key, value);
      values := Dict(data);
      changed := true;
    }
  }

  /** After a successful `set_value` of a non-dictionary value on an open path, `exists` and `get_value` see it. */
  lemma ConfigSetThenGet(base: map<string, Json>, key: string, value: Json)
    requires |SplitKey(key)| >= 1 && PathOpen(base, SplitKey(key)) && !value.Dict?
    ensures Mergeable(base, UpdateFor(SplitKey(key), value))
    ensures !IsEmpty(Dict(Merge(base, UpdateFor(SplitKey(key), value))))
    ensures Lookup(Dict(Merge(base, UpdateFor(SplitKey(key), value))), SplitKey(key)) == Some(value)
  {
    var keys := SplitKey(key);
    GetAfterSet(base, keys, value);
    assert keys[0] in Merge(base, Nested(keys, value));
  }
}
