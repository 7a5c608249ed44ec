# StreamPipes data explorer, data-lake catalogue and user endpoints in Dafny

This project models the core of Apache StreamPipes' IoTDB-backed data explorer and proves properties of that model.

- **Writer.** The IoTDB writer turns an event of a data-lake measure into one IoTDB record. Dimension fields become the device path, in the stored tag order. Every other present, non-null primitive field becomes a typed measurement.
- **Query planning.** A parameter map becomes a fixed-order list of query clauses. Clauses are joined into a query or rewritten into a count query. Tag grouping becomes a level number.
- **Result shaping.** Result rows become data series, column names become headers, and the stored tag-key and device-path strings are parsed back into tags.
- **Catalogue.** The data-lake catalogue does the following:
  - compares event schemas structurally;
  - upserts, adds and deletes measures in a store;
  - filters tag values by the requested fields.
- **HTTP stream protocol.** It builds its configuration model, parses its pull interval, samples records for schema guessing, and strips a byte-order-mark artefact from the response body.
- **Users.** The user endpoints and the user queries of the CouchDB store cover:
  - credential blanking, API-token retention on update, and register-only-if-the-name-is-free;
  - the exactly-one and any-email queries.
- **Value objects.** The IoTDB connection settings and the transport protocol.

Layout: one module per source file, plus two shared modules.

- `java_text.dfy` (`JavaText`) holds Java's string semantics as the code uses them:
  - `split` drops trailing empty pieces;
  - `indexOf` and `lastIndexOf` return -1 when there is no match;
  - strings are joined as a `StringJoiner` does;
  - `isBlank` and `Long.parseLong`;
  - lexicographic `Collections.sort`.
- `schema.dfy` (`Schema`) holds the event-property tree and the data-lake measure.

Where Java code mutates state, the Dafny code does too:

- the writer, the query builder, the query, the stores and the transport protocol are classes;
- the loops of the source are loops with invariants, proved against specification functions.
- measures and principals are values, so a setter on one is an updated copy (see "Left out").

Pure code (property comparison, the `getValue` dispatch, the string parsing of `TagProvider`, token filtering) is functions and lemmas.

Two behaviours of the code differ from what their names suggest, and the model keeps both:

- `ignoreMissingValues` drops every row that has a field, not only rows with missing values (`ExplorerQuery.IgnoringKeepsOnlyRowsWithoutFields`).
- A short schema sample is doubled, not padded to 20 records (`HttpStream.ShortSampleIsDoubledNotPadded`).

## Model

| member | source | states |
|---|---|---|
| IotdbSettings.WithoutCredentials | streampipes-data-explorer-commons/src/main/java/org/apache/streampipes/dataexplorer/commons/iotdb/IotdbConnectionSettings.java:35-41 | the three-argument settings carry host, port and database name and leave username, password and auth mode unset |
| IotdbSettings.WithCredentials | streampipes-data-explorer-commons/src/main/java/org/apache/streampipes/dataexplorer/commons/iotdb/IotdbConnectionSettings.java:43-52 | the five-argument settings are the three-argument ones plus the username and password as given, null included, and auth mode USERNAME_PASSWORD |
| IotdbSettings.From | streampipes-data-explorer-commons/src/main/java/org/apache/streampipes/dataexplorer/commons/iotdb/IotdbConnectionSettings.java:54-60 | `from` yields settings whose getters return exactly the host, port, database, username and password given (a null credential stays null), with auth mode USERNAME_PASSWORD |
| IotdbSettings.FromAlwaysSetsAuthMode | streampipes-data-explorer-commons/src/main/java/org/apache/streampipes/dataexplorer/commons/iotdb/IotdbConnectionSettings.java:35-60 | `from` always sets auth mode USERNAME_PASSWORD and carries exactly the username and password given, null included, on top of the plain settings; the settings have both credentials exactly when both were given non-null; only the private three-argument form leaves the auth mode unset |
| IotdbSettings.NullCredentialsStillSetAuthMode | streampipes-data-explorer-commons/src/main/java/org/apache/streampipes/dataexplorer/commons/iotdb/IotdbConnectionSettings.java:43-60 | a null username passed to `from` still gives auth mode USERNAME_PASSWORD, with no username set |
| Grounding.TransportProtocol.Empty | streampipes-model/src/main/java/org/streampipes/model/grounding/TransportProtocol.java:24-26 | the no-argument protocol has neither broker hostname nor topic |
| Grounding.TransportProtocol.constructor | streampipes-model/src/main/java/org/streampipes/model/grounding/TransportProtocol.java:28-33 | the (uri, topic) protocol has broker hostname uri and topic name topic |
| Grounding.TransportProtocol.Copy | streampipes-model/src/main/java/org/streampipes/model/grounding/TransportProtocol.java:35-39 | the copy takes both fields of its source and leaves the source unchanged |
| Grounding.TransportProtocol.GetBrokerHostname | streampipes-model/src/main/java/org/streampipes/model/grounding/TransportProtocol.java:41-43 | returns the broker hostname field |
| Grounding.TransportProtocol.GetTopicName | streampipes-model/src/main/java/org/streampipes/model/grounding/TransportProtocol.java:49-51 | returns the topic name field |
| Grounding.TransportProtocol.SetBrokerHostname | streampipes-model/src/main/java/org/streampipes/model/grounding/TransportProtocol.java:45-47 | sets the broker hostname and leaves the topic name as it was |
| Grounding.TransportProtocol.SetTopicName | streampipes-model/src/main/java/org/streampipes/model/grounding/TransportProtocol.java:53-55 | sets the topic name and leaves the broker hostname as it was |
| Grounding.CopyIsIndependent | streampipes-model/src/main/java/org/streampipes/model/grounding/TransportProtocol.java:35-55 | changing the topic of a copy leaves its source unchanged, and the copy keeps the source's broker hostname |
| IotdbWriter.TypeTag | streampipes-data-explorer-commons/src/main/java/org/apache/streampipes/dataexplorer/commons/iotdb/IotdbStore.java:231-264 | INTEGER maps to INT32, LONG to INT64, FLOAT to FLOAT, DOUBLE and schema.org Number to DOUBLE, BOOLEAN to BOOLEAN, and every other runtime type to TEXT |
| IotdbWriter.HandleMeasurementAsWritten | streampipes-data-explorer-commons/src/main/java/org/apache/streampipes/dataexplorer/commons/iotdb/IotdbStore.java:223-268 | the handler as written: the name is always appended, and when the conversion succeeds the name, type and value lists each grow by exactly one entry, with the type from TypeTag |
| IotdbWriter.IntegerFallbackMisalignsColumns | streampipes-data-explorer-commons/src/main/java/org/apache/streampipes/dataexplorer/commons/iotdb/IotdbStore.java:233-240 | an INTEGER field with text "21.5" leaves one name, the types [INT32, FLOAT] and one value |
| IotdbWriter.AsWrittenFallbackBreaksAlignment | streampipes-data-explorer-commons/src/main/java/org/apache/streampipes/dataexplorer/commons/iotdb/IotdbStore.java:233-248 | as written, whenever an INTEGER or LONG conversion fails, the type list gets two entries, so the three lists no longer line up |
| IotdbWriter.HandleMeasurement | streampipes-data-explorer-commons/src/main/java/org/apache/streampipes/dataexplorer/commons/iotdb/IotdbStore.java:223-268 | the corrected handler keeps the three lists aligned; a successful conversion appends name, TypeTag and value; otherwise the field is either written as FLOAT (integer or long that parses as float) or ignored |
| IotdbWriter.DimensionNames | streampipes-data-explorer-commons/src/main/java/org/apache/streampipes/dataexplorer/commons/iotdb/IotdbStore.java:203-207 | exactly the runtime names of the dimension properties of the schema |
| IotdbWriter.FallbackTagOrderSplits | streampipes-data-explorer-commons/src/main/java/org/apache/streampipes/dataexplorer/commons/iotdb/IotdbStore.java:200-219 | splitting the fallback tag order on "," gives back the dimension names, sorted |
| IotdbWriter.Classify | streampipes-data-explorer-commons/src/main/java/org/apache/streampipes/dataexplorer/commons/iotdb/IotdbStore.java:121-155 | a field is a tag or a measurement exactly when it is a present, non-null primitive that is not the timestamp; tags are dimension properties and measurements are not |
| IotdbWriter.GroupsDecideWhatChanges | streampipes-data-explorer-commons/src/main/java/org/apache/streampipes/dataexplorer/commons/iotdb/IotdbStore.java:130-155 | only measurement fields change the three lists, and only tag fields change the device map |
| IotdbWriter.MeasurementsComeFromWrittenFields | streampipes-data-explorer-commons/src/main/java/org/apache/streampipes/dataexplorer/commons/iotdb/IotdbStore.java:121-162 | for either handler, every measurement name the loop collects is the sanitized name of a written, non-dimension primitive field |
| IotdbWriter.Handle | streampipes-data-explorer-commons/src/main/java/org/apache/streampipes/dataexplorer/commons/iotdb/IotdbStore.java:223-268 | either handler appends at most the field's name; the handler as written always appends it, and the corrected one keeps aligned lists aligned |
| IotdbWriter.CorrectedColumnsAligned | streampipes-data-explorer-commons/src/main/java/org/apache/streampipes/dataexplorer/commons/iotdb/IotdbStore.java:121-162 | with the corrected handler the name, type and value lists of the loop always have equal length |
| IotdbWriter.AsWrittenAlignedWhenConversionsSucceed | streampipes-data-explorer-commons/src/main/java/org/apache/streampipes/dataexplorer/commons/iotdb/IotdbStore.java:121-162 | when every written measurement field converts to its own type, the loop as written gives the same columns as the corrected one, and they line up |
| IotdbWriter.IntegerFallbackReachesInsertRecord | streampipes-data-explorer-commons/src/main/java/org/apache/streampipes/dataexplorer/commons/iotdb/IotdbStore.java:121-162 | the loop as written, on one INTEGER measurement field whose text is "21.5", collects one name, the two types INT32 and FLOAT, and one value |
| IotdbWriter.DeviceMapComesFromDimensions | streampipes-data-explorer-commons/src/main/java/org/apache/streampipes/dataexplorer/commons/iotdb/IotdbStore.java:138-143 | every device-map entry is the text of a written dimension field, stored under that field's tag index |
| IotdbWriter.DeviceValues | streampipes-data-explorer-commons/src/main/java/org/apache/streampipes/dataexplorer/commons/iotdb/IotdbStore.java:185-191 | the device path has one segment per index 0 .. size-1 |
| IotdbWriter.DeviceMapComplete | streampipes-data-explorer-commons/src/main/java/org/apache/streampipes/dataexplorer/commons/iotdb/IotdbStore.java:174-191 | a device map with as many entries as tags, keyed by tag positions, fills every position, so no "null" segment appears |
| IotdbWriter.DistinctTagIndex | streampipes-data-explorer-commons/src/main/java/org/apache/streampipes/dataexplorer/commons/iotdb/IotdbStore.java:110-116 | a tag order without repeated names maps each name to its own position |
| IotdbWriter.PassingSizeCheckFillsDevicePath | streampipes-data-explorer-commons/src/main/java/org/apache/streampipes/dataexplorer/commons/iotdb/IotdbStore.java:174-191 | once the size check passes, the device path is made of the event's tag values alone, in tag order |
| IotdbWriter.IotdbStore.constructor | streampipes-data-explorer-commons/src/main/java/org/apache/streampipes/dataexplorer/commons/iotdb/IotdbStore.java:54-64 | stores the sanitized name of every schema property; the device is the measure name and the storage path is the database plus ".`name`" |
| IotdbWriter.IotdbStore.Connect | streampipes-data-explorer-commons/src/main/java/org/apache/streampipes/dataexplorer/commons/iotdb/IotdbStore.java:77-85 | the device name is the measure name and the storage path is the database followed by the quoted device name |
| IotdbWriter.IotdbStore.GetTagNameSort | streampipes-data-explorer-commons/src/main/java/org/apache/streampipes/dataexplorer/commons/iotdb/IotdbStore.java:193-221 | returns the stored tag order of the device; when there is none, returns the fallback order (sorted, comma-joined dimension names, or "") and stores it |
| IotdbWriter.IotdbStore.ScanProperties | streampipes-data-explorer-commons/src/main/java/org/apache/streampipes/dataexplorer/commons/iotdb/IotdbStore.java:121-162 | the loop, calling the handler as written, builds exactly the device map and the columns of the field-by-field definitions |
| IotdbWriter.IotdbStore.OnEvent | streampipes-data-explorer-commons/src/main/java/org/apache/streampipes/dataexplorer/commons/iotdb/IotdbStore.java:93-183 | a null event fails before anything happens; otherwise the call fails when the tag count differs from the tag values found, and else inserts exactly one record: storage path plus device path, the timestamp, and the measurement columns the handler as written collects |
| IotdbWriter.BuildTagIndex | streampipes-data-explorer-commons/src/main/java/org/apache/streampipes/dataexplorer/commons/iotdb/IotdbStore.java:109-119 | each comma-separated tag name maps to a position where it occurs, which is its last position |
| IotdbWriter.GetDeviceId | streampipes-data-explorer-commons/src/main/java/org/apache/streampipes/dataexplorer/commons/iotdb/IotdbStore.java:185-191 | ".`v`" for each index 0 .. size-1 of the device map, in index order |
| TagProvider.GetTagKeys | streampipes-data-explorer/src/main/java/org/apache/streampipes/dataexplorer/iotdb/v0/utils/TagProvider.java:19-29 | there are no keys exactly when the stored string is missing or blank; otherwise the keys are the comma-split pieces |
| TagProvider.TagKeysRoundTrip | streampipes-data-explorer/src/main/java/org/apache/streampipes/dataexplorer/iotdb/v0/utils/TagProvider.java:22-28 | keys without commas that are stored comma-joined are read back unchanged |
| TagProvider.GetTagValues | streampipes-data-explorer/src/main/java/org/apache/streampipes/dataexplorer/iotdb/v0/utils/TagProvider.java:31-48 | at most one value array, found only from the first device; when present it has the requested length; it fails only when the prefix is not in the device path |
| TagProvider.TagValuesRoundTrip | streampipes-data-explorer/src/main/java/org/apache/streampipes/dataexplorer/iotdb/v0/utils/TagProvider.java:33-43 | a device path built as prefix plus values joined with "." gives back exactly those values |
| TagProvider.ValuesAt | streampipes-data-explorer/src/main/java/org/apache/streampipes/dataexplorer/iotdb/v0/utils/TagProvider.java:61-66 | the set of the values at one index of the arrays |
| TagProvider.PutEach | streampipes-data-explorer/src/main/java/org/apache/streampipes/dataexplorer/iotdb/v0/utils/TagProvider.java:61-66 | putting each value of a non-empty set under a key leaves one of those values, and the other keys stay as they were |
| TagProvider.FillTags | streampipes-data-explorer/src/main/java/org/apache/streampipes/dataexplorer/iotdb/v0/utils/TagProvider.java:61-66 | every tag key appears, and each maps to a value found at that key's last position |
| TagProvider.GetTags | streampipes-data-explorer/src/main/java/org/apache/streampipes/dataexplorer/iotdb/v0/utils/TagProvider.java:50-72 | an empty map when the keys are null or no values are found; otherwise the map has exactly the tag keys, each mapped to its value |
| QueryBuilding.Statements | streampipes-data-explorer/src/main/java/org/apache/streampipes/dataexplorer/iotdb/v0/query/QueryBuilder.java:41-43 | one statement per element, in list order |
| QueryBuilding.CountQuery | streampipes-data-explorer/src/main/java/org/apache/streampipes/dataexplorer/iotdb/v0/query/QueryBuilder.java:56-58 | a count query starts with "SELECT COUNT(*) FROM "; it fails only when "FROM" is missing and the query is shorter than 3 characters |
| QueryBuilding.CountQueryAfterFirstFrom | streampipes-data-explorer/src/main/java/org/apache/streampipes/dataexplorer/iotdb/v0/query/QueryBuilder.java:56-58 | the count query is the prefix followed by the text after the first "FROM" |
| QueryBuilding.CountQueryWithoutFrom | streampipes-data-explorer/src/main/java/org/apache/streampipes/dataexplorer/iotdb/v0/query/QueryBuilder.java:56-58 | with no "FROM", `indexOf` gives -1, so the text from index 3 on is kept (or substring throws) |
| QueryBuilding.QueryBuilder.constructor | streampipes-data-explorer/src/main/java/org/apache/streampipes/dataexplorer/iotdb/v0/query/QueryBuilder.java:31-34 | a new builder has no parts |
| QueryBuilding.QueryBuilder.ToQuery | streampipes-data-explorer/src/main/java/org/apache/streampipes/dataexplorer/iotdb/v0/query/QueryBuilder.java:51-53 | the parts joined by single spaces |
| QueryBuilding.QueryBuilder.ToCountResultsQuery | streampipes-data-explorer/src/main/java/org/apache/streampipes/dataexplorer/iotdb/v0/query/QueryBuilder.java:56-58 | the count query of the joined parts |
| QueryBuilding.QueryBuilder.Build | streampipes-data-explorer/src/main/java/org/apache/streampipes/dataexplorer/iotdb/v0/query/QueryBuilder.java:40-49 | appends one statement per element to the parts; returns exactly `toQuery()`, or the count query when only counting |
| QueryBuilding.Create | streampipes-data-explorer/src/main/java/org/apache/streampipes/dataexplorer/iotdb/v0/query/QueryBuilder.java:36-38 | a fresh builder over the database name, with no parts |
| QueryBuilding.BuildOnFreshBuilder | streampipes-data-explorer/src/main/java/org/apache/streampipes/dataexplorer/iotdb/v0/query/QueryBuilder.java:40-53 | a fresh builder gives the statements joined by single spaces, and "" for an empty list |
| QueryBuilding.BuildTwice | streampipes-data-explorer/src/main/java/org/apache/streampipes/dataexplorer/iotdb/v0/query/QueryBuilder.java:40-49 | a second build on the same builder appends to the parts of the first |
| GroupingByTags.LastMatchedLevel | streampipes-data-explorer/src/main/java/org/apache/streampipes/dataexplorer/iotdb/v0/query/elements/GroupingByTags.java:45-53 | -1 exactly when no grouping tag is a tag key; else 4 plus the index of the first equal key, for the last matching grouping tag |
| GroupingByTags.LaterUnknownTagsChangeNothing | streampipes-data-explorer/src/main/java/org/apache/streampipes/dataexplorer/iotdb/v0/query/elements/GroupingByTags.java:46-53 | grouping tags that are no tag key leave the level as it was |
| GroupingByTags.SecondTagOverwritesFirst | streampipes-data-explorer/src/main/java/org/apache/streampipes/dataexplorer/iotdb/v0/query/elements/GroupingByTags.java:46-53 | of two matching grouping tags, the second decides the level |
| GroupingByTags.BuildStatement | streampipes-data-explorer/src/main/java/org/apache/streampipes/dataexplorer/iotdb/v0/query/elements/GroupingByTags.java:37-59 | fails when no grouping tag matches (or with a null pointer when the keys are null); else passes the level digits, without the trailing comma, to the template |
| ExplorerQuery.Lookup | streampipes-data-explorer/src/main/java/org/apache/streampipes/dataexplorer/iotdb/v0/query/DataExplorerQuery.java:222-265 | a parameter is found exactly when its key is present |
| ExplorerQuery.ClauseOrderHasNoRepeats | streampipes-data-explorer/src/main/java/org/apache/streampipes/dataexplorer/iotdb/v0/query/DataExplorerQuery.java:219-268 | a clause list in clause order never repeats a key |
| ExplorerQuery.ClausesStep | streampipes-data-explorer/src/main/java/org/apache/streampipes/dataexplorer/iotdb/v0/query/DataExplorerQuery.java:230-265 | adding the clause of one key before the clauses of the rest gives the clauses of all the keys |
| ExplorerQuery.PlanFollowsClauseOrder | streampipes-data-explorer/src/main/java/org/apache/streampipes/dataexplorer/iotdb/v0/query/DataExplorerQuery.java:219-268 | the plan is the first element followed by the clauses of the fixed key order |
| ExplorerQuery.ClausesShape | streampipes-data-explorer/src/main/java/org/apache/streampipes/dataexplorer/iotdb/v0/query/DataExplorerQuery.java:230-265 | the clauses are exactly the present keys with their parameters, in the fixed order |
| ExplorerQuery.ClausesSound | streampipes-data-explorer/src/main/java/org/apache/streampipes/dataexplorer/iotdb/v0/query/DataExplorerQuery.java:230-265 | every clause added is for a present key of the list, with that key's parameters |
| ExplorerQuery.ClausesComplete | streampipes-data-explorer/src/main/java/org/apache/streampipes/dataexplorer/iotdb/v0/query/DataExplorerQuery.java:230-265 | every present key of the list has its clause added |
| ExplorerQuery.ClausesOrdered | streampipes-data-explorer/src/main/java/org/apache/streampipes/dataexplorer/iotdb/v0/query/DataExplorerQuery.java:230-265 | keys tried in rank order give clauses in the fixed order, so no kind repeats |
| ExplorerQuery.ClauseListWellPlanned | streampipes-data-explorer/src/main/java/org/apache/streampipes/dataexplorer/iotdb/v0/query/DataExplorerQuery.java:219-268 | the first element plus the clause list is well planned |
| ExplorerQuery.PlanShape | streampipes-data-explorer/src/main/java/org/apache/streampipes/dataexplorer/iotdb/v0/query/DataExplorerQuery.java:219-268 | SELECT_FROM comes first when present and DELETE_FROM otherwise; at most one grouping, with time grouping winning over tag grouping; the other clauses appear exactly when their key is present, in the order Where, grouping, Fill, Order, Limit, Offset |
| ExplorerQuery.StorageTypesReadBackDistinctly | streampipes-data-explorer/src/main/java/org/apache/streampipes/dataexplorer/iotdb/v0/query/DataExplorerQuery.java:175-187 | each storage type the writer uses reads back as its own kind of value, and only TEXT reads back as a string |
| ExplorerQuery.GetValue | streampipes-data-explorer/src/main/java/org/apache/streampipes/dataexplorer/iotdb/v0/query/DataExplorerQuery.java:169-188 | reads the type at column i+1 and fails when it is missing; the literal "null" gives null; any other field is converted by the kind of that type |
| ExplorerQuery.Cells | streampipes-data-explorer/src/main/java/org/apache/streampipes/dataexplorer/iotdb/v0/query/DataExplorerQuery.java:149-156 | one value per field when no conversion fails, cell k being the converted value of field k |
| ExplorerQuery.CellsFail | streampipes-data-explorer/src/main/java/org/apache/streampipes/dataexplorer/iotdb/v0/query/DataExplorerQuery.java:149-156 | reading n fields fails exactly when n > 0 and the type list has at most n entries |
| ExplorerQuery.ConvertRows | streampipes-data-explorer/src/main/java/org/apache/streampipes/dataexplorer/iotdb/v0/query/DataExplorerQuery.java:143-161 | a failure is always an index-out-of-bounds error |
| ExplorerQuery.ConvertRowsFails | streampipes-data-explorer/src/main/java/org/apache/streampipes/dataexplorer/iotdb/v0/query/DataExplorerQuery.java:143-161 | conversion fails exactly when some row has a field without a column type |
| ExplorerQuery.AllRowsKept | streampipes-data-explorer/src/main/java/org/apache/streampipes/dataexplorer/iotdb/v0/query/DataExplorerQuery.java:143-160 | without ignoreMissingValues every row is kept, as its timestamp followed by the converted value of each of its fields, in order |
| ExplorerQuery.RowsWithoutFields | streampipes-data-explorer/src/main/java/org/apache/streampipes/dataexplorer/iotdb/v0/query/DataExplorerQuery.java:151-158 | exactly the rows that have no fields: every kept row has none, and every row without fields is kept |
| ExplorerQuery.IgnoringKeepsOnlyRowsWithoutFields | streampipes-data-explorer/src/main/java/org/apache/streampipes/dataexplorer/iotdb/v0/query/DataExplorerQuery.java:151-158 | with ignoreMissingValues every row that has a field is dropped; the rows without fields are kept as their timestamp alone |
| ExplorerQuery.HeaderName | streampipes-data-explorer/src/main/java/org/apache/streampipes/dataexplorer/iotdb/v0/query/DataExplorerQuery.java:210-214 | "Time" becomes "time"; any other column becomes its text after the last ".", or stays whole when it has no "." |
| ExplorerQuery.SetHeader | streampipes-data-explorer/src/main/java/org/apache/streampipes/dataexplorer/iotdb/v0/query/DataExplorerQuery.java:207-217 | one header per column, in order, each the column's header name |
| ExplorerQuery.DataExplorerQuery.constructor | streampipes-data-explorer/src/main/java/org/apache/streampipes/dataexplorer/iotdb/v0/query/DataExplorerQuery.java:69-73 | stores the parameters, no event limit (-1) and no id |
| ExplorerQuery.DataExplorerQuery.WithId | streampipes-data-explorer/src/main/java/org/apache/streampipes/dataexplorer/iotdb/v0/query/DataExplorerQuery.java:62-67 | stores the parameters and sets the id to be appended |
| ExplorerQuery.DataExplorerQuery.WithLimit | streampipes-data-explorer/src/main/java/org/apache/streampipes/dataexplorer/iotdb/v0/query/DataExplorerQuery.java:75-78 | stores the parameters and the event limit |
| ExplorerQuery.DataExplorerQuery.GetQueryElements | streampipes-data-explorer/src/main/java/org/apache/streampipes/dataexplorer/iotdb/v0/query/DataExplorerQuery.java:219-268 | the element list is the plan of the parameters |
| ExplorerQuery.DataExplorerQuery.AddIfPresent | streampipes-data-explorer/src/main/java/org/apache/streampipes/dataexplorer/iotdb/v0/query/DataExplorerQuery.java:230-265 | one `containsKey` test: the clause of a present key is appended, and an absent key leaves the list unchanged |
| ExplorerQuery.DataExplorerQuery.ConvertResult | streampipes-data-explorer/src/main/java/org/apache/streampipes/dataexplorer/iotdb/v0/query/DataExplorerQuery.java:137-167 | the kept rows, their count as the total, the column names, and the tags looked up with the storage bucket's name as the measurement id; the first conversion failure, else a failing tag lookup, fails the call |
| ExplorerQuery.DataExplorerQuery.PostQuery | streampipes-data-explorer/src/main/java/org/apache/streampipes/dataexplorer/iotdb/v0/query/DataExplorerQuery.java:191-205 | fails as its conversion fails; otherwise one data series with the looked-up tags, the total equal to the number of rows kept, the columns' header names as headers, and the id only when the query was built with one |
| DataLakeManagement.Size | streampipes-data-explorer/src/main/java/org/apache/streampipes/dataexplorer/DataLakeIotdbManagement.java:185-218 | every property has a size of at least 1 |
| DataLakeManagement.SizeList | streampipes-data-explorer/src/main/java/org/apache/streampipes/dataexplorer/DataLakeIotdbManagement.java:185-218 | a list is at least as large as each of its properties |
| DataLakeManagement.Compare | streampipes-data-explorer/src/main/java/org/apache/streampipes/dataexplorer/DataLakeIotdbManagement.java:185-218 | equal lists have the same length, and every property of the first list has a same-kind match in the second |
| DataLakeManagement.AllMatch | streampipes-data-explorer/src/main/java/org/apache/streampipes/dataexplorer/DataLakeIotdbManagement.java:190-217 | true exactly when every property finds a match |
| DataLakeManagement.MatchIn | streampipes-data-explorer/src/main/java/org/apache/streampipes/dataexplorer/DataLakeIotdbManagement.java:190-217 | a match needs a same-named property of the same kind with a matching type or structure; the full answer is `DataLakeManagement.MatchInFirstDecides` |
| DataLakeManagement.MatchInFirstDecides | streampipes-data-explorer/src/main/java/org/apache/streampipes/dataexplorer/DataLakeIotdbManagement.java:190-217 | the loop answers exactly the verdict of the first same-named candidate of the same kind (and, for primitives, the same runtime type): true for a primitive, the item comparison for a list, the children comparison for a nested property; false when no candidate decides |
| DataLakeManagement.EmptyListsCompareEqual | streampipes-data-explorer/src/main/java/org/apache/streampipes/dataexplorer/DataLakeIotdbManagement.java:190-217 | two empty lists compare equal |
| DataLakeManagement.DifferentLengthsCompareUnequal | streampipes-data-explorer/src/main/java/org/apache/streampipes/dataexplorer/DataLakeIotdbManagement.java:186-188 | lists of different lengths compare unequal |
| DataLakeManagement.OtherKindIsSkipped | streampipes-data-explorer/src/main/java/org/apache/streampipes/dataexplorer/DataLakeIotdbManagement.java:192-215 | a same-named property of another kind never counts as a match |
| DataLakeManagement.ListsCompareItems | streampipes-data-explorer/src/main/java/org/apache/streampipes/dataexplorer/DataLakeIotdbManagement.java:204-206 | a same-named pair of list properties is decided by comparing their item properties |
| DataLakeManagement.NestedCompareChildren | streampipes-data-explorer/src/main/java/org/apache/streampipes/dataexplorer/DataLakeIotdbManagement.java:209-211 | a same-named pair of nested properties is decided by comparing their children |
| DataLakeManagement.CompareReflexive | streampipes-data-explorer/src/main/java/org/apache/streampipes/dataexplorer/DataLakeIotdbManagement.java:185-218 | a list whose runtime names are distinct at every level compares equal to itself |
| DataLakeManagement.MatchesItself | streampipes-data-explorer/src/main/java/org/apache/streampipes/dataexplorer/DataLakeIotdbManagement.java:190-217 | a property is matched by itself when no earlier property has its name |
| DataLakeManagement.FindById | streampipes-data-explorer/src/main/java/org/apache/streampipes/dataexplorer/DataLakeIotdbManagement.java:146-162 | returns a measure with the id, and none exactly when no measure has it |
| DataLakeManagement.FindByName | streampipes-data-explorer/src/main/java/org/apache/streampipes/dataexplorer/DataLakeIotdbManagement.java:165-168 | returns the first measure with the name, and none exactly when no measure has it |
| DataLakeManagement.Replaced | streampipes-data-explorer/src/main/java/org/apache/streampipes/dataexplorer/DataLakeIotdbManagement.java:146-154 | the measure with the same id is replaced, and every other measure stays in place |
| DataLakeManagement.Removed | streampipes-data-explorer/src/main/java/org/apache/streampipes/dataexplorer/DataLakeIotdbManagement.java:156-162 | exactly the measures with another id remain |
| DataLakeManagement.FindAfterReplace | streampipes-data-explorer/src/main/java/org/apache/streampipes/dataexplorer/DataLakeIotdbManagement.java:146-154 | after an update the id finds the new measure, and other ids find what they found before |
| DataLakeManagement.FindOtherAfterReplace | streampipes-data-explorer/src/main/java/org/apache/streampipes/dataexplorer/DataLakeIotdbManagement.java:146-154 | an update leaves the lookup of every other id as it was |
| DataLakeManagement.FindAfterRemove | streampipes-data-explorer/src/main/java/org/apache/streampipes/dataexplorer/DataLakeIotdbManagement.java:156-162 | after a delete the id is gone, and other ids find what they found before |
| DataLakeManagement.FindAppend | streampipes-data-explorer/src/main/java/org/apache/streampipes/dataexplorer/DataLakeIotdbManagement.java:146-154 | storing a measure makes it findable behind any earlier measure with the same id |
| DataLakeManagement.FindByNameAfterAppend | streampipes-data-explorer/src/main/java/org/apache/streampipes/dataexplorer/DataLakeIotdbManagement.java:176-179 | storing a measure under a new name makes that name find it |
| DataLakeManagement.DataLakeStorage.constructor | streampipes-data-explorer/src/main/java/org/apache/streampipes/dataexplorer/DataLakeIotdbManagement.java:221-223 | the store holds the given measures |
| DataLakeManagement.DataLakeStorage.GetAll | streampipes-data-explorer/src/main/java/org/apache/streampipes/dataexplorer/DataLakeIotdbManagement.java:165 | all stored measures |
| DataLakeManagement.DataLakeStorage.FindOne | streampipes-data-explorer/src/main/java/org/apache/streampipes/dataexplorer/DataLakeIotdbManagement.java:147 | a stored measure with the id, and none exactly when no measure has it |
| DataLakeManagement.DataLakeStorage.StoreMeasure | streampipes-data-explorer/src/main/java/org/apache/streampipes/dataexplorer/DataLakeIotdbManagement.java:152 | appends the measure |
| DataLakeManagement.DataLakeStorage.UpdateMeasure | streampipes-data-explorer/src/main/java/org/apache/streampipes/dataexplorer/DataLakeIotdbManagement.java:150 | replaces the measure with the same id |
| DataLakeManagement.DataLakeStorage.DeleteMeasure | streampipes-data-explorer/src/main/java/org/apache/streampipes/dataexplorer/DataLakeIotdbManagement.java:158 | removes the measures with the id |
| DataLakeManagement.UpdateDataLake | streampipes-data-explorer/src/main/java/org/apache/streampipes/dataexplorer/DataLakeIotdbManagement.java:146-154 | an upsert: a stored id has its rev copied onto the new measure, which replaces it; a new id is stored; afterwards the id is found |
| DataLakeManagement.DeleteDataLakeMeasure | streampipes-data-explorer/src/main/java/org/apache/streampipes/dataexplorer/DataLakeIotdbManagement.java:156-162 | fails with "Could not find measure with this ID" exactly when the id is absent, leaving the store unchanged; else removes it; afterwards the id is gone |
| DataLakeManagement.AddDataLake | streampipes-data-explorer/src/main/java/org/apache/streampipes/dataexplorer/DataLakeIotdbManagement.java:164-183 | a new name is stored with the current schema version and returned; an existing name stores nothing and returns the old entry when the schemas differ, the argument otherwise |
| DataLakeManagement.RemoveMeasurement | streampipes-data-explorer/src/main/java/org/apache/streampipes/dataexplorer/DataLakeIotdbManagement.java:71-84 | the delete is issued exactly when some measure has the name, and the result is true exactly when it is issued and succeeds |
| DataLakeManagement.Requested | streampipes-data-explorer/src/main/java/org/apache/streampipes/dataexplorer/DataLakeIotdbManagement.java:128-133 | the values at one tag index that are among the requested fields |
| DataLakeManagement.RequestedTagsShape | streampipes-data-explorer/src/main/java/org/apache/streampipes/dataexplorer/DataLakeIotdbManagement.java:117-140 | a key is included only with a non-empty set of values, all of them requested fields; every key with a requested value is included |
| DataLakeManagement.RequestedTagsKeys | streampipes-data-explorer/src/main/java/org/apache/streampipes/dataexplorer/DataLakeIotdbManagement.java:128-134 | every key put is a tag key with a non-empty set of values, each value a requested field |
| DataLakeManagement.RequestedTagsValues | streampipes-data-explorer/src/main/java/org/apache/streampipes/dataexplorer/DataLakeIotdbManagement.java:128-134 | the values of every key put are the requested values at one of the key's positions |
| DataLakeManagement.RequestedTagsComplete | streampipes-data-explorer/src/main/java/org/apache/streampipes/dataexplorer/DataLakeIotdbManagement.java:128-134 | every position with a requested value puts its key |
| DataLakeManagement.GetTagValues | streampipes-data-explorer/src/main/java/org/apache/streampipes/dataexplorer/DataLakeIotdbManagement.java:114-142 | an empty map for null or "" fields; otherwise, per tag key, the requested values found at its index |
| DataLakeManagement.FillRequestedTags | streampipes-data-explorer/src/main/java/org/apache/streampipes/dataexplorer/DataLakeIotdbManagement.java:128-134 | the key loop leaves exactly the map of non-empty requested value sets, a later equal key overwriting an earlier one |
| HttpStream.SingleValue | streampipes-connect/src/main/java/org/streampipes/connect/firstconnector/protocol/stream/HttpStreamProtocol.java:61-62 | the value of the first configuration property with the name, or null when no property has it |
| HttpStream.GetInstance | streampipes-connect/src/main/java/org/streampipes/connect/firstconnector/protocol/stream/HttpStreamProtocol.java:60-72 | null exactly when the interval value does not parse as a Long; otherwise a protocol carrying the parser, the format, the url value and the parsed interval |
| HttpStream.DeclareModel | streampipes-connect/src/main/java/org/streampipes/connect/firstconnector/protocol/stream/HttpStreamProtocol.java:75-92 | id ID, source type STREAM, configuration [url, interval] in that order, with no values set |
| HttpStream.ConfiguredModelGivesInstance | streampipes-connect/src/main/java/org/streampipes/connect/firstconnector/protocol/stream/HttpStreamProtocol.java:60-92 | the declared model filled in with a url and a printed Long gives back exactly that url and interval |
| HttpStream.IntervalWithUnitGivesNoInstance | streampipes-connect/src/main/java/org/streampipes/connect/firstconnector/protocol/stream/HttpStreamProtocol.java:64-70 | an interval such as "5s" gives no protocol |
| HttpStream.GetId | streampipes-connect/src/main/java/org/streampipes/connect/firstconnector/protocol/stream/HttpStreamProtocol.java:136-138 | the id of the declared model |
| HttpStream.SchemaSample | streampipes-connect/src/main/java/org/streampipes/connect/firstconnector/protocol/stream/HttpStreamProtocol.java:96-106 | fewer than 20 records are doubled in place, giving 2k records; 20 or more are kept as they are |
| HttpStream.ShortSampleIsDoubledNotPadded | streampipes-connect/src/main/java/org/streampipes/connect/firstconnector/protocol/stream/HttpStreamProtocol.java:96-106 | a doubled sample is the records twice over, and one of fewer than 10 records stays short of 20 |
| HttpStream.GetNElements | streampipes-connect/src/main/java/org/streampipes/connect/firstconnector/protocol/stream/HttpStreamProtocol.java:114-132 | one decoded map per record, in record order, and a short result is not an error |
| HttpStream.GetGuessSchema | streampipes-connect/src/main/java/org/streampipes/connect/firstconnector/protocol/stream/HttpStreamProtocol.java:95-111 | the schema is guessed from the schema sample together with one decoded map per refetched record |
| HttpStream.StripBom | streampipes-connect/src/main/java/org/streampipes/connect/firstconnector/protocol/stream/HttpStreamProtocol.java:150-152 | a body starting with "ï" loses its first 3 characters, and substring throws when it is shorter; other bodies are unchanged |
| HttpStream.BomIsStripped | streampipes-connect/src/main/java/org/streampipes/connect/firstconnector/protocol/stream/HttpStreamProtocol.java:150-152 | a body behind the Latin-1 reading of a UTF-8 byte order mark comes out as the body alone |
| HttpStream.GetDataFromEndpoint | streampipes-connect/src/main/java/org/streampipes/connect/firstconnector/protocol/stream/HttpStreamProtocol.java:141-161 | null after an IOException; otherwise it fails exactly when the byte-order-mark strip fails, and else returns the stripped body; a body without the mark comes back unchanged |
| UserStorage.GetAllUsers | streampipes-storage-couchdb/src/main/java/org/streampipes/storage/couchdb/impl/UserStorage.java:27-31 | all stored users, in storage order |
| UserStorage.WithUsername | streampipes-storage-couchdb/src/main/java/org/streampipes/storage/couchdb/impl/UserStorage.java:36-37 | the users with the name, and empty exactly when none has it |
| UserStorage.ViewStartsWithFirstMatch | streampipes-storage-couchdb/src/main/java/org/streampipes/storage/couchdb/impl/UserStorage.java:36-38 | the first stored user with the name heads the view |
| UserStorage.GetUser | streampipes-storage-couchdb/src/main/java/org/streampipes/storage/couchdb/impl/UserStorage.java:33-39 | fails exactly when no user has the name; otherwise returns a stored user with that name |
| UserStorage.GetUserIsFirstMatch | streampipes-storage-couchdb/src/main/java/org/streampipes/storage/couchdb/impl/UserStorage.java:36-38 | getUser returns the first stored user with the name |
| UserStorage.CheckUser | streampipes-storage-couchdb/src/main/java/org/streampipes/storage/couchdb/impl/UserStorage.java:64-68 | true only when some stored user has the name |
| UserStorage.ExactlyOneWithHead | streampipes-storage-couchdb/src/main/java/org/streampipes/storage/couchdb/impl/UserStorage.java:64-68 | with a first user of that name, exactly one match means no match among the rest |
| UserStorage.ExactlyOneWithoutHead | streampipes-storage-couchdb/src/main/java/org/streampipes/storage/couchdb/impl/UserStorage.java:64-68 | with a first user of another name, exactly one match overall means exactly one among the rest |
| UserStorage.CheckUserIffExactlyOne | streampipes-storage-couchdb/src/main/java/org/streampipes/storage/couchdb/impl/UserStorage.java:64-68 | checkUser is true exactly when one stored user has the name |
| UserStorage.EmailExists | streampipes-storage-couchdb/src/main/java/org/streampipes/storage/couchdb/impl/UserStorage.java:49-56 | true exactly when some user has a non-null email equal to the argument |
| UserResource.UserAccounts | streampipes-rest/src/main/java/org/apache/streampipes/rest/impl/UserResource.java:46 | exactly the user accounts of the store |
| UserResource.ServiceAccounts | streampipes-rest/src/main/java/org/apache/streampipes/rest/impl/UserResource.java:48 | exactly the service accounts of the store |
| UserResource.FindById | streampipes-rest/src/main/java/org/apache/streampipes/rest/impl/UserResource.java:211-213 | a principal with the id, and null exactly when none has it |
| UserResource.FindByUsername | streampipes-rest/src/main/java/org/apache/streampipes/rest/impl/UserResource.java:111-132 | a principal with the name, and null exactly when none has it |
| UserResource.WithoutId | streampipes-rest/src/main/java/org/apache/streampipes/rest/impl/UserResource.java:79 | exactly the principals with another id remain |
| UserResource.Updated | streampipes-rest/src/main/java/org/apache/streampipes/rest/impl/UserResource.java:155-184 | the principal with the same id is replaced, and every other principal stays in place |
| UserResource.WithRev | streampipes-rest/src/main/java/org/apache/streampipes/rest/impl/UserResource.java:161-178 | the principal with the rev set; its id, name and kind, and its password and tokens or its client secret, unchanged |
| UserResource.UserStore.constructor | streampipes-rest/src/main/java/org/apache/streampipes/rest/impl/UserResource.java:211-213 | the store holds the given principals |
| UserResource.UserStore.GetUser | streampipes-rest/src/main/java/org/apache/streampipes/rest/impl/UserResource.java:111-132 | a stored principal with the name, and null exactly when none has it |
| UserResource.UserStore.GetUserById | streampipes-rest/src/main/java/org/apache/streampipes/rest/impl/UserResource.java:211-213 | a stored principal with the id, and null exactly when none has it |
| UserResource.UserStore.StoreUser | streampipes-rest/src/main/java/org/apache/streampipes/rest/impl/UserResource.java:115-133 | appends the principal |
| UserResource.UserStore.UpdateUser | streampipes-rest/src/main/java/org/apache/streampipes/rest/impl/UserResource.java:162-179 | replaces the principal with the same id |
| UserResource.UserStore.DeleteUser | streampipes-rest/src/main/java/org/apache/streampipes/rest/impl/UserResource.java:79 | removes the principals with the id |
| UserResource.WithoutCredentials | streampipes-rest/src/main/java/org/apache/streampipes/rest/impl/UserResource.java:219-223 | a user account gets password ""; any other principal is untouched |
| UserResource.RemoveCredentials | streampipes-rest/src/main/java/org/apache/streampipes/rest/impl/UserResource.java:215-217 | every principal, in order, with its credentials removed |
| UserResource.WithoutCredentialsIdempotent | streampipes-rest/src/main/java/org/apache/streampipes/rest/impl/UserResource.java:219-223 | removing credentials twice is removing them once, and no user account keeps a password |
| UserResource.KeptTokens | streampipes-rest/src/main/java/org/apache/streampipes/rest/impl/UserResource.java:192-200 | exactly the existing tokens whose id appears in the new token list |
| UserResource.KeptTokensKeepOrder | streampipes-rest/src/main/java/org/apache/streampipes/rest/impl/UserResource.java:192-200 | the kept tokens are in the existing order |
| UserResource.AllTokensKept | streampipes-rest/src/main/java/org/apache/streampipes/rest/impl/UserResource.java:192-200 | when every existing token id is in the new list, all existing tokens are kept |
| UserResource.UpdateUser | streampipes-rest/src/main/java/org/apache/streampipes/rest/impl/UserResource.java:190-201 | the update keeps the existing password, and keeps exactly those existing tokens whose id is in the new list, in existing order |
| UserResource.GetAllUsers | streampipes-rest/src/main/java/org/apache/streampipes/rest/impl/UserResource.java:43-54 | USER_ACCOUNT gives the user accounts, SERVICE_ACCOUNT the service accounts and anything else all users, and no password is returned |
| UserResource.GetUserDetails | streampipes-rest/src/main/java/org/apache/streampipes/rest/impl/UserResource.java:61-70 | "User not found" exactly when no principal has the id; otherwise the first principal with that id, without its password |
| UserResource.DeleteUser | streampipes-rest/src/main/java/org/apache/streampipes/rest/impl/UserResource.java:75-84 | removes the principal only when it exists, and otherwise reports "User not found"; afterwards no principal has the id |
| UserResource.RegisterUser | streampipes-rest/src/main/java/org/apache/streampipes/rest/impl/UserResource.java:108-123 | stores the account with its encrypted password only when the name is free; otherwise the store is unchanged and the request is refused |
| UserResource.RegisterService | streampipes-rest/src/main/java/org/apache/streampipes/rest/impl/UserResource.java:130-138 | stores the service account only when the name is free; otherwise the store is unchanged and the request is refused |
| UserResource.RegistrationKeepsNamesUnique | streampipes-rest/src/main/java/org/apache/streampipes/rest/impl/UserResource.java:108-138 | registering only free names keeps user names unique in the store |
| UserResource.UpdateUserAccountDetails | streampipes-rest/src/main/java/org/apache/streampipes/rest/impl/UserResource.java:155-167 | updates only for a non-null body when the caller is the principal or an admin, copying the existing rev, password and kept tokens; every other outcome leaves the store unchanged |
| UserResource.UpdateServiceAccountDetails | streampipes-rest/src/main/java/org/apache/streampipes/rest/impl/UserResource.java:173-184 | updates only for a non-null body when the caller is the principal or an admin, copying the existing rev; every other outcome leaves the store unchanged |
| UserResource.OnlySelfOrAdminMayUpdate | streampipes-rest/src/main/java/org/apache/streampipes/rest/impl/UserResource.java:158-176 | a caller who is neither the principal nor an admin may not update it |

## Left out

- I/O is replaced by inputs or by stores. The IoTDB session pool, the CouchDB client and the HTTP request become:
  - the tag database of the writer (a map) and the list of inserted records;
  - query results as rows of strings;
  - the first device path and the stored tag keys as optional strings;
  - the response body as an optional string (None when an IOException occurred);
  - the user and data-lake stores as classes over sequences.
- Stores: the stores behind `IUserStorage` and `IDataLakeStorage` are not part of this model. Their update replaces entries by id, delete removes by id, store appends, and lookups return the first match.
- UserResource store lookup: `getUser` on the unseen store returns null when the name is free, as UserResource relies on. This differs from the older `UserStorage.getUser`, which throws on an empty view. Each module models its own file.
- Function parameters: `IotdbNameSanitizer.renameReservedKeywords`, the templates of `QueryTemplates.groupByTags`, the statements of the query elements, `PasswordUtil.encryptPassword` (None when it throws), the parser, the format and the schema guesser. Their code is not in this model.
- Numbers: the float and double values of fields and cells are not modelled. A value is its storage type and its text, and whether each conversion succeeds is a flag of the raw value.
- `IotdbStore.onEvent`: the timestamp read through `getFieldBySelector` is an input.
- The IoTDB call that stores a fallback tag order becomes an update of the tag map. The other IoTDB failures (connection errors, statement errors) are not modelled.
- Not modelled at all: `IotdbStore.close`, the environment constructor of IotdbStore, and `IotdbConnectionSettings.from(Environment)`. They read configuration or close connections.
- DataExplorerQuery: `executeQuery` and `getAmountOfResults` are database I/O, and the latter is reached only from commented-out code. The no-argument constructor sets nothing and is not modelled.
- DataLakeIotdbManagement not modelled: `getData`, `getDataAsStream`, `deleteData`, `removeAllMeasurements` and `removeEventProperty`. They are database and CouchDB I/O.
- DataLakeIotdbManagement `removeMeasurement`: the delete query is an input flag (whether it succeeds).
- UserResource not modelled: `updateAppearanceMode`, `createNewApiToken` and `isAdmin`. They delegate to the security context and the token service. The authenticated name and the admin check are inputs of the update endpoints.
- Principals are values. Setter calls on a principal are modelled by building the updated value, so aliasing between a principal object and the store is not modelled.
- `DataLakeManagement.UpdateDataLake`, `DataLakeManagement.AddDataLake`: measures are values. `setRev` (DataLakeIotdbManagement.java:147) and `setSchemaVersion` (:176) are modelled by storing, and for AddDataLake returning, an updated copy. The caller's own measure object is not changed in the model, whereas in Java it is, and so is whatever else refers to it.
- Logging is left out throughout.
- `TagProvider.GetTagKeys`, `JavaText.IsBlank`: a Java `char` is a UTF-16 unit and a Dafny `char` a Unicode scalar value. `Character.isWhitespace` of a surrogate half is false, and so is the model's answer for a character above U+FFFF. The two therefore agree on every string of Unicode characters. A Dafny string cannot hold the unpaired surrogates a Java string can.
- `JavaText.ParseLong`: accepts only the ASCII digits '0' to '9'. `Long.parseLong` also accepts the decimal digits of other scripts, such as Arabic-Indic or fullwidth digits. So `HttpStream.GetInstance` yields no protocol for an interval written in those digits, where the source builds one.
- `JavaText.LexLessEq`: compares Unicode scalar values, whereas `String.compareTo` compares UTF-16 units. The two orders differ only when a character above U+FFFF meets a character from U+E000 to U+FFFF at the first differing position. This is the order of `IotdbWriter.FallbackTagOrder` and of the sorted tag lists.
- `HttpStream.SingleValue`: `ParameterExtractor` is not part of this model. The model takes its `singleValue` to answer the first value of the named property, and null when no property has the name. An extractor that dereferences a missing property would instead throw a NullPointerException, which `getInstance` does not catch. `HttpStream.GetInstance` rests on the same reading.
- `DataLakeManagement.CompareReflexive`: proved only for schemas whose runtime names are distinct at every level, which is when the first-same-named-candidate rule matches a property with itself.
- `DataLakeManagement.Compare`: states only the direction "equal lists match property by property" as an ensures. The other direction is given case by case by `OtherKindIsSkipped`, `ListsCompareItems` and `NestedCompareChildren`.
- `UserStorage.CheckUser`: its ensures gives one direction; the equivalence is `UserStorage.CheckUserIffExactlyOne`.
- `HttpStream.StripBom`, `QueryBuilding.CountQuery`, `TagProvider.GetTagValues`: lengths and indices count Unicode scalar values, whereas Java's `length`, `indexOf` and `substring` count UTF-16 units. The two differ only for strings holding characters above U+FFFF. For the body "ï😀" (Java length 3) the source's `substring(3)` gives "" where the model fails. For the query "😀a", which has no "FROM" and a Java length of 3, the source returns the bare count prefix where the model fails. With bucket "root", measurement id "😀", device "root.x.y.z.w" and two keys, Java starts at index 9 and keeps the value array, while the model starts at 8 and returns no values.
- `ExplorerQuery.DataExplorerQuery.ConvertResult`: the tag lookup's IoTDB failures, which the source rethrows as `RuntimeException("select tag error")`, are not modelled; the two tag rows are inputs. The source looks the tags up under `getDatabaseName()` (the storage bucket) as the measurement id rather than the queried measurement, and its own comment at DataExplorerQuery.java:162 marks this line as a suspected bug; the model keeps that behaviour.
- `UserResource.UpdateUserAccountDetails`: requires that a sent body is a user account (`updateServiceAccountDetails` likewise takes only service accounts). The JAX-RS parameter types already guarantee this.

## Findings

| source | as written | input that shows it | evidently intended | confidence | as-written member | corrected member |
|---|---|---|---|---|---|---|
| streampipes-data-explorer-commons/src/main/java/org/apache/streampipes/dataexplorer/commons/iotdb/IotdbStore.java:233-248 | In the INTEGER and LONG branches the INT32 or INT64 type is added before `getAsInt` or `getAsLong` is tried. When the conversion throws, the FLOAT fallback adds a second type for the same name, and when that fails too the name stays with no value. | An INTEGER field whose text is "21.5": measurements ["temperature"], types [INT32, FLOAT], values [21.5] | One type and one value per measurement name: FLOAT for an integer or long that parses only as a float; no part of the field written when no conversion succeeds | not executed | IotdbWriter.HandleMeasurementAsWritten | IotdbWriter.HandleMeasurement |

`IotdbStore.ScanProperties` and `onEvent` keep the handler as written, since that is what the source calls. The corrected handler is `ColumnsOf(Corrected, …)` (`IotdbWriter.CorrectedColumnsAligned`). The two agree whenever every conversion succeeds (`IotdbWriter.AsWrittenAlignedWhenConversionsSucceed`).
