/**
 * The values the filters work on: the parsed configuration, described
 * objects and their fields. A field's type is the one thing the field filter
 * changes in place, so a field is an object with a mutable type.
 */
module Schema {

  datatype Option<T> = None | Some(value: T)

  /**
   * The parsed configuration: each top-level key with its list of strings.
   * A key that is not present reads as absent, never as an error.
   */
  type Config = map<string, seq<string>>

  /** The reserved top-level key holding the global field patterns, also the include-all entry. */
  const Wildcard: string := "_"

  /** The field types the filter distinguishes; every other type is carried by name. */
  datatype FieldType = Combobox | Picklist | OtherType(typeName: string)

  class Field {
    const name: string
    var fieldType: FieldType

    constructor (name: string, fieldType: FieldType)
      ensures this.name == name && this.fieldType == fieldType
    {
      this.name := name;
      this.fieldType := fieldType;
    }
  }

  /** A described object: its API name and its fields in the order described. */
  datatype DescribedObject = DescribedObject(name: string, fields: seq<Field>)
}
