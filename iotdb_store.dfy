/**
 * IotdbStore: turns one event of a data-lake measure into one IoTDB record.
 * Dimension fields become the device path (the measure's tag values in tag
 * order), every other present, non-null primitive field becomes a
 * measurement with a storage type chosen from its XSD runtime type.
 *
 * The session pool is replaced by the part of the database the writer
 * touches: the tag database (device name -> stored tag order) and the list
 * of records inserted so far.
 */
module IotdbWriter {
  import opened JavaText
  import opened Schema
  import opened IotdbSettings

  // ---------------------------------------------------------------------------
  // Storage types and runtime types

  /** The TSDataType tags the writer uses. */
  datatype TSDataType = INT32 | INT64 | FLOAT | DOUBLE | BOOLEAN | TEXT

  const XSD_INTEGER: string := "http://www.w3.org/2001/XMLSchema#integer"
  const XSD_LONG: string := "http://www.w3.org/2001/XMLSchema#long"
  const XSD_FLOAT: string := "http://www.w3.org/2001/XMLSchema#float"
  const XSD_DOUBLE: string := "http://www.w3.org/2001/XMLSchema#double"
  const XSD_BOOLEAN: string := "http://www.w3.org/2001/XMLSchema#boolean"
  const SO_NUMBER: string := "http://schema.org/Number"

  /** The storage type a runtime type is written as when its conversion succeeds. */
  function TypeTag(runtimeType: string): (t: TSDataType)
    ensures runtimeType == XSD_INTEGER ==> t == INT32
    ensures runtimeType == XSD_LONG ==> t == INT64
    ensures runtimeType == XSD_FLOAT ==> t == FLOAT
    ensures runtimeType == XSD_DOUBLE || runtimeType == SO_NUMBER ==> t == DOUBLE
    ensures runtimeType == XSD_BOOLEAN ==> t == BOOLEAN
    ensures runtimeType !in {XSD_INTEGER, XSD_LONG, XSD_FLOAT, XSD_DOUBLE, XSD_BOOLEAN, SO_NUMBER}
            ==> t == TEXT
  {
    if runtimeType == XSD_INTEGER then INT32
    else if runtimeType == XSD_LONG then INT64
    else if runtimeType == XSD_FLOAT then FLOAT
    else if runtimeType == XSD_DOUBLE then DOUBLE
    else if runtimeType == XSD_BOOLEAN then BOOLEAN
    else if runtimeType == SO_NUMBER then DOUBLE
    else TEXT
  }

  // ---------------------------------------------------------------------------
  // Events

  /**
   * The raw value of a primitive field: its text (getAsString) and whether
   * getAsInt, getAsLong, getAsFloat and getAsDouble succeed on it (each
   * conversion that fails throws NumberFormatException).
   */
  datatype RawValue = RawValue(text: string, asInt: bool, asLong: bool, asFloat: bool, asDouble: bool)

  /** A field of an event: a primitive field with a possibly null raw value, or a field that is not primitive. */
  datatype EventField = PrimitiveField(raw: Option<RawValue>) | NonPrimitiveField

  /** An event: its timestamp (already read through the measure's timestamp selector) and its fields by runtime name. */
  datatype Event = Event(timestamp: int, fields: map<string, EventField>)

  /** A value handed to insertRecord: the conversion used on the raw text (the number itself is not modelled). */
  datatype Value = Value(tag: TSDataType, text: string)

  /** The three parallel lists insertRecord receives. */
  datatype Columns = Columns(measurements: seq<string>, types: seq<TSDataType>, values: seq<Value>)

  /** One call of insertRecord: device path, timestamp and the three lists. */
  datatype InsertedRecord = InsertedRecord(deviceId: string, timestamp: int, columns: Columns)

  const NoColumns: Columns := Columns([], [], [])

  /** Names, types and values line up: one type and one value per measurement. */
  predicate Aligned(c: Columns) {
    |c.measurements| == |c.types| == |c.values|
  }

  function AppendColumn(c: Columns, name: string, t: TSDataType, text: string): Columns {
    Columns(c.measurements + [name], c.types + [t], c.values + [Value(t, text)])
  }

  /** The conversion a runtime type asks for succeeds on the raw value. */
  predicate ConversionSucceeds(runtimeType: string, raw: RawValue) {
    if runtimeType == XSD_INTEGER then raw.asInt
    else if runtimeType == XSD_LONG then raw.asLong
    else if runtimeType == XSD_FLOAT then raw.asFloat
    else if runtimeType == XSD_DOUBLE || runtimeType == SO_NUMBER then raw.asDouble
    else true
  }

  /**
   * handleMeasurementProperty as written: the name is appended first; in the
   * integer and long branches the INT32/INT64 tag is appended before the
   * conversion is tried, and the float fallback appends a second tag; a
   * conversion that fails for good leaves the lists as they are at that point.
   */
  function HandleMeasurementAsWritten(c: Columns, runtimeType: string, name: string, raw: RawValue): (r: Columns)
    ensures r.measurements == c.measurements + [name]
    ensures ConversionSucceeds(runtimeType, raw) ==> r == AppendColumn(c, name, TypeTag(runtimeType), raw.text)
  {
    var m := c.measurements + [name];
    if runtimeType == XSD_INTEGER || runtimeType == XSD_LONG then
      var t := if runtimeType == XSD_INTEGER then INT32 else INT64;
      var ok := if runtimeType == XSD_INTEGER then raw.asInt else raw.asLong;
      if ok then Columns(m, c.types + [t], c.values + [Value(t, raw.text)])
      else if raw.asFloat then Columns(m, c.types + [t, FLOAT], c.values + [Value(FLOAT, raw.text)])
      else Columns(m, c.types + [t, FLOAT], c.values)
    else if runtimeType == XSD_FLOAT then
      if raw.asFloat then Columns(m, c.types + [FLOAT], c.values + [Value(FLOAT, raw.text)])
      else Columns(m, c.types + [FLOAT], c.values)
    else if runtimeType == XSD_DOUBLE || runtimeType == SO_NUMBER then
      if raw.asDouble then Columns(m, c.types + [DOUBLE], c.values + [Value(DOUBLE, raw.text)])
      else Columns(m, c.types + [DOUBLE], c.values)
    else
      AppendColumn(c, name, TypeTag(runtimeType), raw.text)
  }

  /**
   * An integer field whose text is not an int but is a float (say "21.5")
   * leaves two type tags, INT32 and FLOAT, for one name and one value.
   */
  lemma IntegerFallbackMisalignsColumns()
    ensures var r := HandleMeasurementAsWritten(NoColumns, XSD_INTEGER, "temperature",
                                                RawValue("21.5", false, false, true, true));
            |r.measurements| == 1 && r.types == [INT32, FLOAT] && |r.values| == 1 && !Aligned(r)
  {
  }

  /** The as-written handler breaks alignment whenever an integer or long falls back to float. */
  lemma {:induction false} AsWrittenFallbackBreaksAlignment(c: Columns, runtimeType: string, name: string, raw: RawValue)
    requires Aligned(c)
    requires runtimeType == XSD_INTEGER || runtimeType == XSD_LONG
    requires !ConversionSucceeds(runtimeType, raw)
    ensures !Aligned(HandleMeasurementAsWritten(c, runtimeType, name, raw))
  {
    var r := HandleMeasurementAsWritten(c, runtimeType, name, raw);
    assert |r.types| == |c.types| + 2;
  }

  /**
   * handleMeasurementProperty as intended: the field is written with the type
   * its conversion produced (FLOAT when an integer or long falls back to
   * float), or the whole field is ignored when no conversion succeeds.
   */
  function HandleMeasurement(c: Columns, runtimeType: string, name: string, raw: RawValue): (r: Columns)
    ensures Aligned(c) ==> Aligned(r)
    ensures ConversionSucceeds(runtimeType, raw) ==> r == AppendColumn(c, name, TypeTag(runtimeType), raw.text)
    ensures !ConversionSucceeds(runtimeType, raw) ==>
              r == c || (raw.asFloat && r == AppendColumn(c, name, FLOAT, raw.text))
  {
    if ConversionSucceeds(runtimeType, raw) then AppendColumn(c, name, TypeTag(runtimeType), raw.text)
    else if (runtimeType == XSD_INTEGER || runtimeType == XSD_LONG) && raw.asFloat then
      AppendColumn(c, name, FLOAT, raw.text)
    else c
  }

  // ---------------------------------------------------------------------------
  // Classifying the schema's fields

  /** The runtime names of the dimension properties, in schema order. */
  function DimensionNames(props: seq<EventProperty>): (r: seq<string>)
    ensures forall n | n in r :: exists i | 0 <= i < |props| :: IsDimension(props[i]) && props[i].runtimeName == n
    ensures forall i | 0 <= i < |props| && IsDimension(props[i]) :: props[i].runtimeName in r
  {
    if props == [] then []
    else
      var init := DimensionNames(props[..|props| - 1]);
      if IsDimension(props[|props| - 1]) then init + [props[|props| - 1].runtimeName] else init
  }

  /** The tag order written when the tag database has none: the dimension names, sorted, comma-joined. */
  function FallbackTagOrder(props: seq<EventProperty>): string {
    var dims := DimensionNames(props);
    if dims == [] then "" else Join(SortStrings(dims), ",")
  }

  /**
   * Reading the fallback tag order back (as onEvent does with split(",")) gives
   * the dimension names in sorted order, when they are non-empty and hold no comma.
   */
  lemma FallbackTagOrderSplits(props: seq<EventProperty>)
    requires DimensionNames(props) != []
    requires forall i | 0 <= i < |props| :: IsDimension(props[i]) ==>
               props[i].runtimeName != "" && ',' !in props[i].runtimeName
    ensures Split(FallbackTagOrder(props), ',') == SortStrings(DimensionNames(props))
    ensures SortedLex(Split(FallbackTagOrder(props), ','))
  {
    var dims := DimensionNames(props);
    var sorted := SortStrings(dims);
    assert forall k | 0 <= k < |sorted| :: sorted[k] in multiset(dims);
    assert forall k | 0 <= k < |sorted| :: sorted[k] in dims;
    JoinSplit(sorted, ',');
  }

  /** The tag index onEvent builds from the tag order: each name to its position, a repeated name to its last one. */
  function TagIndex(tags: seq<string>): map<string, int> {
    map k | k in tags :: LastIndexOfItem(tags, k)
  }

  /** A primitive that reaches insertRecord as a measurement or a tag value. */
  predicate Written(ep: EventProperty, timestampField: string, event: Event) {
    && ep.Primitive?
    && !EndsWith(timestampField, ep.runtimeName)
    && ep.runtimeName in event.fields
    && event.fields[ep.runtimeName].PrimitiveField?
    && event.fields[ep.runtimeName].raw.Some?
  }

  function RawOf(ep: EventProperty, timestampField: string, event: Event): RawValue
    requires Written(ep, timestampField, event)
  {
    event.fields[ep.runtimeName].raw.value
  }

  /**
   * The group onEvent puts a schema property in: not a primitive, the
   * timestamp, missing from the event, a field that is no primitive (its
   * exception is caught and the field ignored), null-valued, a tag, or a
   * measurement.
   */
  datatype FieldGroup = NotPrimitive | TimestampGroup | MissingGroup | IgnoredGroup | NullGroup | TagGroup | MeasurementGroup

  function Classify(ep: EventProperty, timestampField: string, event: Event): (g: FieldGroup)
    ensures g == TagGroup || g == MeasurementGroup <==> Written(ep, timestampField, event)
    ensures g == TagGroup ==> IsDimension(ep)
    ensures g == MeasurementGroup ==> !IsDimension(ep)
  {
    if !ep.Primitive? then NotPrimitive
    else if EndsWith(timestampField, ep.runtimeName) then TimestampGroup
    else if ep.runtimeName !in event.fields then MissingGroup
    else if !event.fields[ep.runtimeName].PrimitiveField? then IgnoredGroup
    else if event.fields[ep.runtimeName].raw.None? then NullGroup
    else if IsDimension(ep) then TagGroup
    else MeasurementGroup
  }

  /**
   * Which handleMeasurementProperty builds the measurement lists: the one the
   * source calls (as written), or the corrected one of the finding above.
   */
  datatype Handler = AsWritten | Corrected

  /** One measurement field handled: either its name is appended, or nothing changes. */
  function Handle(h: Handler, c: Columns, runtimeType: string, name: string, raw: RawValue): (r: Columns)
    ensures r.measurements == c.measurements || r.measurements == c.measurements + [name]
    ensures h == AsWritten ==> r.measurements == c.measurements + [name]
    ensures h == Corrected && Aligned(c) ==> Aligned(r)
  {
    match h
    case AsWritten => HandleMeasurementAsWritten(c, runtimeType, name, raw)
    case Corrected => HandleMeasurement(c, runtimeType, name, raw)
  }

  /** What one schema property adds to the measurement lists. */
  function ColumnsStep(h: Handler, c: Columns, ep: EventProperty, timestampField: string, event: Event,
                       names: map<string, string>): Columns
  {
    if Written(ep, timestampField, event) && !IsDimension(ep) && ep.runtimeName in names then
      Handle(h, c, ep.runtimeType, names[ep.runtimeName], RawOf(ep, timestampField, event))
    else c
  }

  /** What one schema property adds to the device map (tag index -> tag value). */
  function DeviceStep(dm: map<int, string>, ep: EventProperty, timestampField: string, event: Event,
                      tagIndex: map<string, int>): map<int, string>
  {
    if Written(ep, timestampField, event) && IsDimension(ep) && ep.runtimeName in tagIndex then
      dm[tagIndex[ep.runtimeName] := RawOf(ep, timestampField, event).text]
    else dm
  }

  /** Only a measurement changes the measurement lists, and only a tag changes the device map. */
  lemma GroupsDecideWhatChanges(h: Handler, c: Columns, dm: map<int, string>, ep: EventProperty, timestampField: string,
                                event: Event, names: map<string, string>, tagIndex: map<string, int>)
    ensures Classify(ep, timestampField, event) != MeasurementGroup ==> ColumnsStep(h, c, ep, timestampField, event, names) == c
    ensures Classify(ep, timestampField, event) != TagGroup ==> DeviceStep(dm, ep, timestampField, event, tagIndex) == dm
  {
  }

  /** The measurement lists built from the schema's properties in order. */
  function ColumnsOf(h: Handler, props: seq<EventProperty>, timestampField: string, event: Event,
                     names: map<string, string>): Columns
  {
    if props == [] then NoColumns
    else ColumnsStep(h, ColumnsOf(h, props[..|props| - 1], timestampField, event, names),
                     props[|props| - 1], timestampField, event, names)
  }

  /** The device map built from the schema's properties in order. */
  function DeviceMapOf(props: seq<EventProperty>, timestampField: string, event: Event,
                       tagIndex: map<string, int>): map<int, string>
  {
    if props == [] then map[]
    else DeviceStep(DeviceMapOf(props[..|props| - 1], timestampField, event, tagIndex),
                    props[|props| - 1], timestampField, event, tagIndex)
  }

  /** Some written, non-dimension property of the schema has the sanitized name `m`. */
  predicate MeasuredProperty(props: seq<EventProperty>, timestampField: string, event: Event,
                             names: map<string, string>, m: string)
  {
    exists i | 0 <= i < |props| ::
      && Written(props[i], timestampField, event) && !IsDimension(props[i])
      && props[i].runtimeName in names && names[props[i].runtimeName] == m
  }

  /**
   * Only written, non-dimension primitives become measurements: a timestamp
   * field, a missing field, a null field and a dimension field never do.
   * This holds for the handler as written and for the corrected one.
   */
  lemma {:induction false} MeasurementsComeFromWrittenFields(h: Handler, props: seq<EventProperty>,
                                                            timestampField: string, event: Event,
                                                            names: map<string, string>)
    ensures forall m | m in ColumnsOf(h, props, timestampField, event, names).measurements ::
              MeasuredProperty(props, timestampField, event, names, m)
  {
    if props != [] {
      var init := props[..|props| - 1];
      var last := props[|props| - 1];
      MeasurementsComeFromWrittenFields(h, init, timestampField, event, names);
      var before := ColumnsOf(h, init, timestampField, event, names);
      var after := ColumnsOf(h, props, timestampField, event, names);
      assert after == ColumnsStep(h, before, last, timestampField, event, names);
      forall m | m in after.measurements
        ensures MeasuredProperty(props, timestampField, event, names, m)
      {
        if m in before.measurements {
          var i :| 0 <= i < |init| && Written(init[i], timestampField, event) && !IsDimension(init[i])
                   && init[i].runtimeName in names && names[init[i].runtimeName] == m;
          assert props[i] == init[i];
        } else {
          assert Written(last, timestampField, event) && !IsDimension(last) && last.runtimeName in names;
          assert after.measurements == before.measurements + [names[last.runtimeName]];
          assert props[|props| - 1] == last;
        }
      }
    }
  }

  /** With the corrected handler the three lists stay aligned over the whole schema. */
  lemma {:induction false} CorrectedColumnsAligned(props: seq<EventProperty>, timestampField: string, event: Event,
                                                  names: map<string, string>)
    ensures Aligned(ColumnsOf(Corrected, props, timestampField, event, names))
  {
    if props != [] {
      CorrectedColumnsAligned(props[..|props| - 1], timestampField, event, names);
    }
  }

  /** Every measurement field of the event converts with the conversion its runtime type asks for. */
  predicate ConversionsSucceed(props: seq<EventProperty>, timestampField: string, event: Event) {
    forall i | 0 <= i < |props| :: Written(props[i], timestampField, event) && !IsDimension(props[i]) ==>
      ConversionSucceeds(props[i].runtimeType, RawOf(props[i], timestampField, event))
  }

  /**
   * When no conversion fails, the columns onEvent writes as written are the
   * corrected ones, and so they line up: one type and one value per name.
   */
  lemma {:induction false} AsWrittenAlignedWhenConversionsSucceed(props: seq<EventProperty>, timestampField: string,
                                                                 event: Event, names: map<string, string>)
    requires ConversionsSucceed(props, timestampField, event)
    ensures ColumnsOf(AsWritten, props, timestampField, event, names) == ColumnsOf(Corrected, props, timestampField, event, names)
    ensures Aligned(ColumnsOf(AsWritten, props, timestampField, event, names))
  {
    CorrectedColumnsAligned(props, timestampField, event, names);
    if props != [] {
      var init := props[..|props| - 1];
      assert ConversionsSucceed(init, timestampField, event) by {
        forall i | 0 <= i < |init| ensures init[i] == props[i] {}
      }
      AsWrittenAlignedWhenConversionsSucceed(init, timestampField, event, names);
    }
  }

  /**
   * The finding at the level of a whole event: one INTEGER measurement whose
   * text is "21.5" reaches insertRecord with one name, two types and one value.
   */
  lemma IntegerFallbackReachesInsertRecord()
    ensures var props := [Primitive("temperature", XSD_INTEGER, Some("MEASUREMENT_PROPERTY"))];
            var event := Event(0, map["temperature" := PrimitiveField(Some(RawValue("21.5", false, false, true, true)))]);
            var c := ColumnsOf(AsWritten, props, "s0::timestamp", event, map["temperature" := "temperature"]);
            c.measurements == ["temperature"] && c.types == [INT32, FLOAT] && |c.values| == 1
  {
    var props := [Primitive("temperature", XSD_INTEGER, Some("MEASUREMENT_PROPERTY"))];
    var event := Event(0, map["temperature" := PrimitiveField(Some(RawValue("21.5", false, false, true, true)))]);
    assert !EndsWith("s0::timestamp", "temperature");
    assert !IsDimension(props[0]);
    assert props[..0] == [];
  }

  /** Tag values come only from written dimension fields, stored under their tag index. */
  lemma {:induction false} DeviceMapComesFromDimensions(props: seq<EventProperty>, timestampField: string,
                                                       event: Event, tagIndex: map<string, int>)
    ensures forall idx | idx in DeviceMapOf(props, timestampField, event, tagIndex) ::
              exists i | 0 <= i < |props| ::
                && Written(props[i], timestampField, event) && IsDimension(props[i])
                && props[i].runtimeName in tagIndex && tagIndex[props[i].runtimeName] == idx
                && RawOf(props[i], timestampField, event).text == DeviceMapOf(props, timestampField, event, tagIndex)[idx]
  {
    if props != [] {
      var init := props[..|props| - 1];
      var last := props[|props| - 1];
      DeviceMapComesFromDimensions(init, timestampField, event, tagIndex);
      var before := DeviceMapOf(init, timestampField, event, tagIndex);
      var after := DeviceMapOf(props, timestampField, event, tagIndex);
      forall idx | idx in after
        ensures exists i | 0 <= i < |props| ::
                  && Written(props[i], timestampField, event) && IsDimension(props[i])
                  && props[i].runtimeName in tagIndex && tagIndex[props[i].runtimeName] == idx
                  && RawOf(props[i], timestampField, event).text == after[idx]
      {
        if Written(last, timestampField, event) && IsDimension(last) && last.runtimeName in tagIndex
           && tagIndex[last.runtimeName] == idx {
          assert props[|props| - 1] == last;
        } else {
          var i :| 0 <= i < |init| && Written(init[i], timestampField, event) && IsDimension(init[i])
                   && init[i].runtimeName in tagIndex && tagIndex[init[i].runtimeName] == idx
                   && RawOf(init[i], timestampField, event).text == before[idx];
          assert props[i] == init[i];
        }
      }
    }
  }

  // ---------------------------------------------------------------------------
  // Device paths

  /** The values of the device map for indices 0 .. n-1, with Java's "null" for a missing index. */
  function DeviceValues(dm: map<int, string>, n: nat): (r: seq<string>)
    ensures |r| == n
  {
    seq(n, i => if i in dm then dm[i] else "null")
  }

  /** ".`v0`.`v1`..." for the given tag values. */
  function DevicePath(values: seq<string>): string {
    if values == [] then "" else DevicePath(values[..|values| - 1]) + ".`" + values[|values| - 1] + "`"
  }

  lemma SubsetCard<T>(a: set<T>, b: set<T>)
    requires a <= b
    ensures |a| <= |b|
  {
    if a != {} {
      var x :| x in a;
      SubsetCard(a - {x}, b - {x});
    }
  }

  /** The positions 0 .. n-1. */
  function Below(n: nat): (r: set<int>)
    ensures forall i :: i in r <==> 0 <= i < n
  {
    if n == 0 then {} else Below(n - 1) + {n - 1}
  }

  lemma {:induction false} BelowCard(n: nat)
    ensures |Below(n)| == n
  {
    if n > 0 {
      BelowCard(n - 1);
      assert n - 1 !in Below(n - 1);
    }
  }

  /**
   * When the device map has as many entries as there are tags and every key is
   * a tag position, every position is filled: the device path is the tag
   * values in index order, with no "null" segment.
   */
  lemma DeviceMapComplete(dm: map<int, string>, n: nat)
    requires forall k | k in dm :: 0 <= k < n
    requires |dm| == n
    ensures forall i | 0 <= i < n :: i in dm && DeviceValues(dm, n)[i] == dm[i]
  {
    var all := Below(n);
    BelowCard(n);
    forall i | 0 <= i < n ensures i in dm {
      if i !in dm {
        assert dm.Keys <= all - {i};
        SubsetCard(dm.Keys, all - {i});
        assert false;
      }
    }
  }

  lemma {:induction false} NamesOfDistinct(tags: seq<string>)
    requires forall i, j | 0 <= i < j < |tags| :: tags[i] != tags[j]
    ensures |set i | 0 <= i < |tags| :: tags[i]| == |tags|
  {
    if tags != [] {
      var init := tags[..|tags| - 1];
      NamesOfDistinct(init);
      var s := set i | 0 <= i < |tags| :: tags[i];
      var s0 := set i | 0 <= i < |init| :: init[i];
      assert s == s0 + {tags[|tags| - 1]};
      assert tags[|tags| - 1] !in s0;
    }
  }

  /** A tag order without a repeated name gives every name its own position. */
  lemma DistinctTagIndex(tags: seq<string>)
    requires forall i, j | 0 <= i < j < |tags| :: tags[i] != tags[j]
    ensures |TagIndex(tags)| == |tags|
    ensures forall i | 0 <= i < |tags| :: TagIndex(tags)[tags[i]] == i
  {
    NamesOfDistinct(tags);
    assert TagIndex(tags).Keys == set i | 0 <= i < |tags| :: tags[i];
  }

  /**
   * When onEvent passes its size check with a tag order that repeats no
   * name, every tag position has a value: the device path is built from the
   * event's tag values alone, with no "null" segment.
   */
  lemma PassingSizeCheckFillsDevicePath(props: seq<EventProperty>, timestampField: string, event: Event,
                                        tags: seq<string>)
    requires forall i, j | 0 <= i < j < |tags| :: tags[i] != tags[j]
    requires |TagIndex(tags)| == |DeviceMapOf(props, timestampField, event, TagIndex(tags))|
    ensures var dm := DeviceMapOf(props, timestampField, event, TagIndex(tags));
            |dm| == |tags| && forall i | 0 <= i < |tags| :: i in dm && DeviceValues(dm, |dm|)[i] == dm[i]
  {
    var index := TagIndex(tags);
    var dm := DeviceMapOf(props, timestampField, event, index);
    DistinctTagIndex(tags);
    DeviceMapComesFromDimensions(props, timestampField, event, index);
    forall k | k in dm ensures 0 <= k < |tags| {
      var i :| 0 <= i < |props| && Written(props[i], timestampField, event) && IsDimension(props[i])
               && props[i].runtimeName in index && index[props[i].runtimeName] == k
               && RawOf(props[i], timestampField, event).text == dm[k];
    }
    DeviceMapComplete(dm, |tags|);
  }

  // ---------------------------------------------------------------------------
  // The writer

  class IotdbStore {
    const measure: Measure
    /** Runtime name -> the name after IotdbNameSanitizer.renameReservedKeywords. */
    var sanitizedRuntimeNames: map<string, string>
    var deviceName: string
    var saveDatabaseName: string
    /** The tag database: for each device name, the tag order stored for it. */
    var tagOrders: map<string, string>
    /** The records inserted so far. */
    var inserted: seq<InsertedRecord>

    /** Every property of the schema has a sanitized name. */
    ghost predicate Valid()
      reads this
    {
      forall i | 0 <= i < |measure.eventProperties| :: measure.eventProperties[i].runtimeName in sanitizedRuntimeNames
    }

    /**
     * Stores the sanitized name of every schema property, then connects:
     * the device is the measure name, under the settings' database.
     */
    constructor (measure: Measure, settings: ConnectionSettings, sanitize: string -> string,
                 tagOrders: map<string, string>)
      ensures Valid()
      ensures this.measure == measure
      ensures sanitizedRuntimeNames.Keys == set i | 0 <= i < |measure.eventProperties| :: measure.eventProperties[i].runtimeName
      ensures forall k | k in sanitizedRuntimeNames :: sanitizedRuntimeNames[k] == sanitize(k)
      ensures deviceName == measure.measureName
      ensures saveDatabaseName == settings.databaseName + ".`" + measure.measureName + "`"
      ensures this.tagOrders == tagOrders && inserted == []
    {
      this.measure := measure;
      var props := measure.eventProperties;
      var names: map<string, string> := map[];
      for i := 0 to |props|
        invariant names.Keys == set j | 0 <= j < i :: props[j].runtimeName
        invariant forall k | k in names :: names[k] == sanitize(k)
      {
        names := names[props[i].runtimeName := sanitize(props[i].runtimeName)];
      }
      sanitizedRuntimeNames := names;
      this.tagOrders := tagOrders;
      inserted := [];
      deviceName := "";
      saveDatabaseName := "";
      new;
      Connect(settings);
    }

    /** connect: the device name is the measure name, the storage path the database plus the quoted device name. */
    method Connect(settings: ConnectionSettings)
      modifies this`deviceName, this`saveDatabaseName
      ensures deviceName == measure.measureName
      ensures saveDatabaseName == settings.databaseName + ".`" + deviceName + "`"
    {
      deviceName := measure.measureName;
      saveDatabaseName := settings.databaseName + ".`" + deviceName + "`";
    }

    /**
     * getTagNameSort: the tag order stored for this device, or else the
     * fallback order, which is then stored in the tag database.
     */
    method GetTagNameSort() returns (order: string)
      modifies this`tagOrders
      ensures deviceName in old(tagOrders) ==> order == old(tagOrders)[deviceName] && tagOrders == old(tagOrders)
      ensures deviceName !in old(tagOrders) ==>
                order == FallbackTagOrder(measure.eventProperties) && tagOrders == old(tagOrders)[deviceName := order]
    {
      if deviceName in tagOrders {
        order := tagOrders[deviceName];
      } else {
        var props := measure.eventProperties;
        var devices: seq<string> := [];
        for i := 0 to |props|
          invariant devices == DimensionNames(props[..i])
        {
          assert props[..i + 1][..i] == props[..i];
          if IsDimension(props[i]) {
            devices := devices + [props[i].runtimeName];
          }
        }
        assert props[..|props|] == props;
        order := "";
        if devices != [] {
          devices := SortStrings(devices);
          order := Join(devices, ",");
        }
        tagOrders := tagOrders[deviceName := order];
      }
    }

    /**
     * The loop of onEvent over the schema's properties: tag values of written
     * dimension fields go to the device map under their tag index, every other
     * written primitive becomes a measurement.
     */
    method ScanProperties(e: Event, tagIndex: map<string, int>)
      returns (deviceMap: map<int, string>, columns: Columns)
      requires Valid()
      ensures deviceMap == DeviceMapOf(measure.eventProperties, measure.timestampField, e, tagIndex)
      ensures columns == ColumnsOf(AsWritten, measure.eventProperties, measure.timestampField, e, sanitizedRuntimeNames)
    {
      var props := measure.eventProperties;
      deviceMap := map[];
      columns := NoColumns;
      for i := 0 to |props|
        invariant deviceMap == DeviceMapOf(props[..i], measure.timestampField, e, tagIndex)
        invariant columns == ColumnsOf(AsWritten, props[..i], measure.timestampField, e, sanitizedRuntimeNames)
      {
        assert props[..i + 1][..i] == props[..i];
        var ep := props[i];
        if ep.Primitive? {
          var runtimeName := ep.runtimeName;
          if !EndsWith(measure.timestampField, runtimeName) {
            var sanitized := sanitizedRuntimeNames[runtimeName];
            if runtimeName in e.fields {
              var field := e.fields[runtimeName];
              if field.PrimitiveField? {
                if field.raw.Some? {
                  if IsDimension(ep) {
                    if runtimeName in tagIndex {
                      deviceMap := deviceMap[tagIndex[runtimeName] := field.raw.value.text];
                    }
                  } else {
                    columns := HandleMeasurementAsWritten(columns, ep.runtimeType, sanitized, field.raw.value);
                  }
                }
              }
              // a field that is not primitive raises SpRuntimeException, which is logged and ignored
            }
          }
        }
      }
      assert props[..|props|] == props;

    }

    /**
     * onEvent: writes one record for the event, or fails. A null event fails
     * before anything happens; the call also fails when the number of tags in
     * the tag order differs from the number of tag values found.
     */
    method OnEvent(event: Option<Event>) returns (r: Result<InsertedRecord>)
      requires Valid()
      modifies this`tagOrders, this`inserted
      ensures event.None? ==> r == Err("event is null") && tagOrders == old(tagOrders) && inserted == old(inserted)
      ensures event.Some? ==>
        var order := if deviceName in old(tagOrders) then old(tagOrders)[deviceName]
                     else FallbackTagOrder(measure.eventProperties);
        var tags := if IsBlank(order) then [] else Split(order, ',');
        tagOrders == old(tagOrders)[deviceName := order] &&
        var tagIndex := TagIndex(tags);
        var dm := DeviceMapOf(measure.eventProperties, measure.timestampField, event.value, tagIndex);
        var record := InsertedRecord(saveDatabaseName + DevicePath(DeviceValues(dm, |dm|)),
                                     event.value.timestamp,
                                     ColumnsOf(AsWritten, measure.eventProperties, measure.timestampField,
                                               event.value, sanitizedRuntimeNames));
        if |tagIndex| != |dm| then
          r == Err("device length is error, please make sure eventSchema") && inserted == old(inserted)
        else
          r == Ok(record) && inserted == old(inserted) + [record]
    {
      if event.None? {
        return Err("event is null");
      }
      var e := event.value;
      var order := GetTagNameSort();
      var tags: seq<string> := if IsBlank(order) then [] else Split(order, ',');
      var tagIndex := BuildTagIndex(tags);

      var deviceMap, columns := ScanProperties(e, tagIndex);

      if |tagIndex| != |deviceMap| {
        return Err("device length is error, please make sure eventSchema");
      }
      var deviceId := GetDeviceId(deviceMap);
      var record := InsertedRecord(saveDatabaseName + deviceId, e.timestamp, columns);
      inserted := inserted + [record];
      r := Ok(record);
    }
  }

  /** The loop over `split` in onEvent: each tag name maps to its (last) position. */
  method BuildTagIndex(tags: seq<string>) returns (index: map<string, int>)
    ensures index == TagIndex(tags)
    ensures index.Keys == set i | 0 <= i < |tags| :: tags[i]
    ensures forall k | k in index :: 0 <= index[k] < |tags| && tags[index[k]] == k
  {
    index := map[];
    for i := 0 to |tags|
      invariant index == TagIndex(tags[..i])
    {
      assert tags[..i + 1][..i] == tags[..i];
      index := index[tags[i] := i];
    }
    assert tags[..|tags|] == tags;
  }

  /** getDeviceId: ".`v`" for each index 0 .. size-1 of the device map, in index order. */
  method GetDeviceId(deviceMap: map<int, string>) returns (id: string)
    ensures id == DevicePath(DeviceValues(deviceMap, |deviceMap|))
  {
    var values := DeviceValues(deviceMap, |deviceMap|);
    id := "";
    for i := 0 to |deviceMap|
      invariant id == DevicePath(values[..i])
    {
      assert values[..i + 1][..i] == values[..i];
      var v := if i in deviceMap then deviceMap[i] else "null";
      id := id + ".`" + v + "`";
    }
    assert values[..|deviceMap|] == values;
  }
}
