/**
 * GroupingByTags: turns the requested grouping tags into the IoTDB level
 * number of a tag. Tag values sit below the storage group and the
 * measurement, so the tag at position i of the stored tag order is level 4 + i.
 */
module GroupingByTags {
  import opened JavaText

  const START_LEVEL: nat := 4
  const TAGS_NOT_FOUND: string := "select tags not found in database"
  const NULL_POINTER: string := "NullPointerException"

  /** `groupingTags[j]` is a tag key and no later grouping tag is one. */
  predicate LastKnownAt(tagKeys: seq<string>, groupingTags: seq<string>, j: int) {
    && 0 <= j < |groupingTags|
    && groupingTags[j] in tagKeys
    && forall j' | j < j' < |groupingTags| :: groupingTags[j'] !in tagKeys
  }

  /**
   * The level the nested loops leave behind. Each grouping tag that is a tag
   * key overwrites the level with 4 plus the position of its first equal key,
   * so the last such grouping tag decides; -1 when none is a tag key.
   */
  function LastMatchedLevel(tagKeys: seq<string>, groupingTags: seq<string>): (r: int)
    ensures r == -1 <==> forall j | 0 <= j < |groupingTags| :: groupingTags[j] !in tagKeys
    ensures r != -1 ==>
              exists j :: LastKnownAt(tagKeys, groupingTags, j) && r == START_LEVEL + IndexOfItem(tagKeys, groupingTags[j])
  {
    if groupingTags == [] then -1
    else
      var n := |groupingTags| - 1;
      var tag := groupingTags[n];
      if tag in tagKeys then
        assert LastKnownAt(tagKeys, groupingTags, n);
        START_LEVEL + IndexOfItem(tagKeys, tag)
      else
        var init := groupingTags[..n];
        var r := LastMatchedLevel(tagKeys, init);
        assert forall j | 0 <= j < n :: init[j] == groupingTags[j];
        assert r != -1 ==>
                 exists j :: LastKnownAt(tagKeys, groupingTags, j) && r == START_LEVEL + IndexOfItem(tagKeys, groupingTags[j]) by {
          if r != -1 {
            var j :| LastKnownAt(tagKeys, init, j) && r == START_LEVEL + IndexOfItem(tagKeys, init[j]);
            assert LastKnownAt(tagKeys, groupingTags, j);
          }
        }
        r
  }

  /** The `tags` string after the loops: empty, or the level followed by ",". */
  function LevelText(level: int): string {
    if level < 0 then "" else NatToString(level) + ","
  }

  /** A last grouping tag that is no tag key leaves the level of the others. */
  lemma UnknownLastTagIsDropped(tagKeys: seq<string>, groupingTags: seq<string>)
    requires groupingTags != [] && groupingTags[|groupingTags| - 1] !in tagKeys
    ensures LastMatchedLevel(tagKeys, groupingTags) == LastMatchedLevel(tagKeys, groupingTags[..|groupingTags| - 1])
  {
  }

  /**
   * Grouping tags after the last one that is a tag key change nothing: the
   * level is that of the last matching tag.
   */
  lemma {:induction false} LaterUnknownTagsChangeNothing(tagKeys: seq<string>, prefix: seq<string>, suffix: seq<string>)
    requires forall j | 0 <= j < |suffix| :: suffix[j] !in tagKeys
    ensures LastMatchedLevel(tagKeys, prefix + suffix) == LastMatchedLevel(tagKeys, prefix)
    decreases |suffix|
  {
    if suffix != [] {
      var all := prefix + suffix;
      var shorter := suffix[..|suffix| - 1];
      assert all[..|all| - 1] == prefix + shorter;
      assert all[|all| - 1] == suffix[|suffix| - 1];
      UnknownLastTagIsDropped(tagKeys, all);
      assert forall j | 0 <= j < |shorter| :: shorter[j] == suffix[j];
      LaterUnknownTagsChangeNothing(tagKeys, prefix, shorter);
    } else {
      assert prefix + suffix == prefix;
    }
  }

  /** Two known grouping tags give one level, the second's: earlier matches are overwritten. */
  lemma SecondTagOverwritesFirst(tagKeys: seq<string>, first: string, second: string)
    requires first in tagKeys && second in tagKeys
    ensures LastMatchedLevel(tagKeys, [first, second]) == START_LEVEL + IndexOfItem(tagKeys, second)
  {
  }

  /**
   * buildStatement with the tag keys passed in (null when the measurement has
   * none): the group-by-tags template applied to the level of the last
   * grouping tag that is a tag key. It fails when no grouping tag is a tag
   * key, and with a null pointer when the keys are null and some grouping tag
   * is asked for.
   */
  method BuildStatement(tagKeys: Option<seq<string>>, groupingTags: seq<string>, groupByTags: string -> string)
    returns (r: Result<string>)
    ensures tagKeys.None? ==> r == Err(if groupingTags == [] then TAGS_NOT_FOUND else NULL_POINTER)
    ensures tagKeys.Some? ==>
              var level := LastMatchedLevel(tagKeys.value, groupingTags);
              r == if level == -1 then Err(TAGS_NOT_FOUND) else Ok(groupByTags(NatToString(level)))
  {
    var tags := "";
    for t := 0 to |groupingTags|
      invariant tagKeys.None? ==> t == 0 && tags == ""
      invariant tagKeys.Some? ==> tags == LevelText(LastMatchedLevel(tagKeys.value, groupingTags[..t]))
    {
      if tagKeys.None? {
        return Err(NULL_POINTER);
      }
      var keys := tagKeys.value;
      var tag := groupingTags[t];
      assert groupingTags[..t + 1][..t] == groupingTags[..t];
      for i := 0 to |keys|
        invariant tags == LevelText(LastMatchedLevel(keys, groupingTags[..t]))
        invariant forall j | 0 <= j < i :: keys[j] != tag
      {
        if keys[i] == tag {
          tags := NatToString(START_LEVEL + i) + ",";
          assert IndexOfItem(keys, tag) == i;
          break;
        }
      }
    }
    assert groupingTags[..|groupingTags|] == groupingTags;
    if tagKeys.Some? && LastMatchedLevel(tagKeys.value, groupingTags) != -1 {
      assert IsDigit(tags[0]) && !IsWhitespace(tags[0]);
    }
    if IsBlank(tags) {
      return Err(TAGS_NOT_FOUND);
    }
    assert tags[..|tags| - 1] == NatToString(LastMatchedLevel(tagKeys.value, groupingTags));
    r := Ok(groupByTags(tags[..|tags| - 1]));
  }
}
