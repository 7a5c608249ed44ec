/**
 * The event schema and data-lake measure as the IoTDB writer, the catalogue
 * and the query layer see them.
 */
module Schema {
  import opened JavaText

  /**
   * An event property: a primitive field with an XSD runtime type, a list
   * with one item property, or a nested property with child properties.
   * Every kind carries a property scope (null when unset).
   */
  datatype EventProperty =
    | Primitive(runtimeName: string, runtimeType: string, propertyScope: Option<string>)
    | ListProperty(runtimeName: string, item: EventProperty, propertyScope: Option<string>)
    | Nested(runtimeName: string, children: seq<EventProperty>, propertyScope: Option<string>)

  /** PropertyScope.DIMENSION_PROPERTY.name(). */
  const DIMENSION_PROPERTY: string := "DIMENSION_PROPERTY"

  predicate IsDimension(ep: EventProperty) {
    ep.propertyScope == Some(DIMENSION_PROPERTY)
  }

  /** A data-lake measure: its catalogue identity and the schema of what it stores. */
  datatype Measure = Measure(
    elementId: string,
    rev: Option<string>,
    measureName: string,
    timestampField: string,
    eventProperties: seq<EventProperty>,
    schemaVersion: Option<string>)
}
