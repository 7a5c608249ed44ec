/**
 * TagProvider: reads the tag keys and tag values of a measurement back from
 * what IoTDB stores. The two query results it works on are inputs here: the
 * first row of the tag database for the measurement (its stored tag order)
 * and the first device path listed under the measurement.
 */
module TagProvider {
  import opened JavaText

  /**
   * getTagKeys: the stored tag order split on ",", or null when there is no
   * stored row, its value is null, or it is blank.
   */
  function GetTagKeys(stored: Option<string>): (r: Option<seq<string>>)
    ensures r.None? <==> stored.None? || IsBlank(stored.value)
    ensures r.Some? ==> forall i | 0 <= i < |r.value| :: ',' !in r.value[i]
  {
    if stored.Some? && !IsBlank(stored.value) then Some(Split(stored.value, ',')) else None
  }

  /** A tag order written as the comma-joined tag names reads back as those names. */
  lemma TagKeysRoundTrip(tags: seq<string>)
    requires |tags| >= 1
    requires forall i | 0 <= i < |tags| :: ',' !in tags[i]
    requires tags[|tags| - 1] != ""
    requires exists i | 0 <= i < |tags| :: !IsBlank(tags[i])
    ensures GetTagKeys(Some(Join(tags, ","))) == Some(tags)
  {
    var i :| 0 <= i < |tags| && !IsBlank(tags[i]);
    if IsBlank(Join(tags, ",")) {
      JoinBlank(tags, ",", i);
    }
    JoinSplit(tags, ',');
  }

  /** The prefix of a device path under the measurement: bucket + ".`" + measurement + "`.". */
  function DevicePrefix(bucket: string, measurementId: string): string {
    bucket + ".`" + measurementId + "`."
  }

  /**
   * getTagValues: at most one array of tag values, read from the first
   * device listed (None when there is none or its value is null). The text
   * after the prefix is split on "."; the array is kept only when it has
   * `length` entries. `substring` throws when the prefix is missing and
   * the device string is shorter than the computed start.
   */
  function GetTagValues(bucket: string, measurementId: string, firstDevice: Option<string>, length: int)
    : (r: Result<seq<seq<string>>>)
    ensures firstDevice.None? || IsBlank(firstDevice.value) ==> r == Ok([])
    ensures r.Ok? ==> |r.value| <= 1
    ensures r.Ok? && r.value != [] ==>
              |r.value[0]| == length && forall j | 0 <= j < length :: '.' !in r.value[0][j]
    ensures r.Err? ==> firstDevice.Some? && IndexOf(firstDevice.value, DevicePrefix(bucket, measurementId)) == -1
  {
    if firstDevice.None? || IsBlank(firstDevice.value) then Ok([])
    else
      var tagValue := firstDevice.value;
      var path := DevicePrefix(bucket, measurementId);
      var start := IndexOf(tagValue, path) + |path|;
      if start > |tagValue| then Err("StringIndexOutOfBoundsException")
      else
        var values := Split(tagValue[start..], '.');
        if |values| == length then Ok([values]) else Ok([])
  }

  /**
   * A device stored under the prefix with the given tag values reads back as
   * exactly those values, when none of them holds a "." and the last is not empty.
   */
  lemma TagValuesRoundTrip(bucket: string, measurementId: string, values: seq<string>)
    requires |values| >= 1
    requires forall i | 0 <= i < |values| :: '.' !in values[i]
    requires values[|values| - 1] != ""
    ensures GetTagValues(bucket, measurementId, Some(DevicePrefix(bucket, measurementId) + Join(values, ".")),
                         |values|) == Ok([values])
  {
    var path := DevicePrefix(bucket, measurementId);
    var rest := Join(values, ".");
    var device := path + rest;
    IndexOfPrefix(path, rest);
    assert device[|bucket| + 1] == '`' && !IsWhitespace('`');
    assert device[|path|..] == rest;
    JoinSplit(values, '.');
  }

  /** The values at index `i` of the arrays: the value set getTags builds for the i-th key. */
  function ValuesAt(arrays: seq<seq<string>>, i: nat): (r: set<string>)
    requires forall a | a in arrays :: i < |a|
    ensures forall v :: v in r <==> exists a | a in arrays :: a[i] == v
    ensures r == {} <==> arrays == []
  {
    var r := set a | a in arrays :: a[i];
    assert arrays != [] ==> arrays[0][i] in r;
    r
  }

  /**
   * valueSet.forEach(value -> tags.put(key, value)): every value is put under
   * the key in turn, so the key ends up with one of them, in an order the
   * set does not fix.
   */
  method PutEach(tags0: map<string, string>, key: string, valueSet: set<string>) returns (tags: map<string, string>)
    requires valueSet != {}
    ensures tags.Keys == tags0.Keys + {key}
    ensures tags[key] in valueSet
    ensures forall k | k in tags && k != key :: tags[k] == tags0[k]
  {
    tags := tags0;
    var remaining := valueSet;
    var value :| value in remaining;
    tags := tags[key := value];
    remaining := remaining - {value};
    while remaining != {}
      invariant remaining <= valueSet
      invariant tags.Keys == tags0.Keys + {key}
      invariant tags[key] in valueSet
      invariant forall k | k in tags && k != key :: tags[k] == tags0[k]
      decreases |remaining|
    {
      value :| value in remaining;
      tags := tags[key := value];
      remaining := remaining - {value};
    }
  }

  /** The tag map holds only keys from `keys`, each with a value from an array at the key's last position. */
  predicate TagsFrom(tags: map<string, string>, keys: seq<string>, arrays: seq<seq<string>>)
    requires forall a | a in arrays :: |a| == |keys|
  {
    forall k | k in tags :: k in keys && exists a | a in arrays :: a[LastIndexOfItem(keys, k)] == tags[k]
  }

  /**
   * The loop of getTags: for each key the value set found at its index is
   * put under the key, so a key listed twice ends up with a value from its
   * last position.
   */
  method FillTags(keys: seq<string>, arrays: seq<seq<string>>) returns (tags: map<string, string>)
    requires forall a | a in arrays :: |a| == |keys|
    ensures arrays == [] ==> tags == map[]
    ensures arrays != [] ==> tags.Keys == (set i | 0 <= i < |keys| :: keys[i])
    ensures forall k | k in tags :: k in keys && exists a | a in arrays :: a[LastIndexOfItem(keys, k)] == tags[k]
  {
    tags := map[];
    for i := 0 to |keys|
      invariant arrays == [] ==> tags == map[]
      invariant arrays != [] ==> tags.Keys == (set j | 0 <= j < i :: keys[j])
      invariant forall k | k in tags :: k in keys[..i] && exists a | a in arrays :: a[LastIndexOfItem(keys[..i], k)] == tags[k]
    {
      var prefix := keys[..i + 1];
      assert prefix[..i] == keys[..i];
      var key := keys[i];
      var valueSet := ValuesAt(arrays, i);
      if valueSet != {} {
        var before := tags;
        tags := PutEach(tags, key, valueSet);
        forall k | k in tags
          ensures k in prefix && exists a | a in arrays :: a[LastIndexOfItem(prefix, k)] == tags[k]
        {
          if k == key {
            assert LastIndexOfItem(prefix, k) == i;
          } else {
            assert LastIndexOfItem(prefix, k) == LastIndexOfItem(keys[..i], k);
            assert tags[k] == before[k];
          }
        }
      }
    }
    assert keys[..|keys|] == keys;
  }

  /**
   * `r` is what getTags answers: an empty map when there are no tag keys or
   * no tag values, the failure of the value lookup, or exactly the keys, each
   * with the value at its last position in the one array of tag values.
   */
  predicate TagsResult(bucket: string, measurementId: string, storedKeys: Option<string>, firstDevice: Option<string>,
                       r: Result<map<string, string>>)
  {
    var tagKeys := GetTagKeys(storedKeys);
    if tagKeys.None? then r == Ok(map[])
    else
      var keys := tagKeys.value;
      var found := GetTagValues(bucket, measurementId, firstDevice, |keys|);
      if found.Err? then r == Err(found.message)
      else if found.value == [] then r == Ok(map[])
      else
        && r.Ok?
        && r.value.Keys == (set i | 0 <= i < |keys| :: keys[i])
        && forall k | k in r.value :: k in keys && r.value[k] == found.value[0][LastIndexOfItem(keys, k)]
  }

  /**
   * getTags: an empty map when there are no tag keys or no tag values;
   * otherwise each key mapped to the value at its (last) position in the one
   * array of tag values.
   */
  method GetTags(bucket: string, measurementId: string, storedKeys: Option<string>, firstDevice: Option<string>)
    returns (r: Result<map<string, string>>)
    ensures GetTagKeys(storedKeys).None? ==> r == Ok(map[])
    ensures GetTagKeys(storedKeys).Some? ==>
      var keys := GetTagKeys(storedKeys).value;
      var found := GetTagValues(bucket, measurementId, firstDevice, |keys|);
      && (found.Err? ==> r == Err(found.message))
      && (found.Ok? && found.value == [] ==> r == Ok(map[]))
      && (found.Ok? && found.value != [] ==>
            && r.Ok?
            && r.value.Keys == (set i | 0 <= i < |keys| :: keys[i])
            && forall k | k in r.value :: r.value[k] == found.value[0][LastIndexOfItem(keys, k)])
    ensures TagsResult(bucket, measurementId, storedKeys, firstDevice, r)
  {
    var tagKeys := GetTagKeys(storedKeys);
    if tagKeys.None? {
      return Ok(map[]);
    }
    var keys := tagKeys.value;
    var found := GetTagValues(bucket, measurementId, firstDevice, |keys|);
    if found.Err? {
      return Err(found.message);
    }
    if found.value == [] {
      return Ok(map[]);
    }
    var tags := FillTags(keys, found.value);
    r := Ok(tags);
  }
}
