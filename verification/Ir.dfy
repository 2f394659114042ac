/** The intermediate representation the generation stages share (generation/ir.py). */
module Ir {
  import opened Wrappers

  datatype ElementField = ElementField(name: string, type_: string, required: bool, values: Option<seq<string>>)

  datatype Kind = Scalar | Embedded | Reference

  datatype Container = ArrayOf | MapOf

  /** How the elements of an array or map field are stored. */
  datatype ElementShape = ElementShape(
    kind: Kind,
    container: Container,
    type_: Option<string>,
    fields: seq<ElementField>,
    targetCollection: Option<string>,
    targetKey: Option<string>,
    localKey: Option<string>,
    linkFields: seq<ElementField>,
    hopCollections: seq<string>)

  datatype Field = Field(
    name: string,
    type_: string,
    required: bool,
    values: Option<seq<string>>,
    format: Option<string>,
    description: Option<string>,
    element: Option<ElementShape>)

  datatype Relationship = Relationship(field: string, targetEntity: string, targetField: string)

  datatype Entity = Entity(
    name: string,
    collection: string,
    primaryKey: string,
    fields: seq<Field>,
    relationships: seq<Relationship>,
    fingerprintFields: seq<string>,
    temporalFields: seq<string>)

  /** The values one field may take. */
  datatype FieldEnum = FieldEnum(name: string, values: seq<string>)

  datatype PrimaryKey = PrimaryKey(collection: string, key: string)

  /** The run-time contract. `pkMap` lists a dictionary's items in order. */
  datatype StoreMetadata = StoreMetadata(
    collections: seq<string>,
    pkMap: seq<PrimaryKey>,
    enumMap: map<string, seq<FieldEnum>>)
  {
    function PkOf(collection: string): (r: Option<string>) {
      FindPk(pkMap, collection)
    }
  }

  function FindPk(items: seq<PrimaryKey>, collection: string): (r: Option<string>) {
    if items == [] then None
    else if items[0].collection == collection then Some(items[0].key)
    else FindPk(items[1..], collection)
  }

  /** A dictionary has each key once. */
  ghost predicate DistinctKeys(items: seq<PrimaryKey>) {
    forall i, j | 0 <= i < j < |items| :: items[i].collection != items[j].collection
  }

  lemma {:induction false} FindPkAt(items: seq<PrimaryKey>, i: nat)
    requires DistinctKeys(items) && i < |items|
    ensures FindPk(items, items[i].collection) == Some(items[i].key)
  {
    if i > 0 {
      FindPkAt(items[1..], i - 1);
    }
  }

  lemma {:induction false} FindPkSome(items: seq<PrimaryKey>, collection: string)
    ensures FindPk(items, collection).Some? <==> exists i :: 0 <= i < |items| && items[i].collection == collection
    ensures forall key :: FindPk(items, collection) == Some(key) ==> PrimaryKey(collection, key) in items
  {
    if items != [] {
      FindPkSome(items[1..], collection);
    }
  }
}
