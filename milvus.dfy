/** The part of the Milvus vector database the services describe to it: field
    schemas, collection schemas and the similarity index. */
module Milvus {
  import opened Wrappers

  /** The field names the two services' collections use. */
  datatype Field = Id | Embedding | Title | Content | Text | Fact | Conclusion

  /** `FieldSchema(...)`: an INT64 auto-id primary key, a VARCHAR with a
      `max_length`, or a FLOAT_VECTOR with a `dim`. */
  datatype FieldSchema =
    | PrimaryKey(name: Field)
    | VarChar(name: Field, maxLength: nat)
    | FloatVector(name: Field, dim: nat)

  datatype CollectionSchema = CollectionSchema(fields: seq<FieldSchema>, description: string)

  datatype IndexType = IvfFlat
  datatype Metric = Cosine

  /** `create_index(field_name, index_params)`. */
  datatype IndexParams = IndexParams(field: Field, indexType: IndexType, metric: Metric, nlist: nat)

  /** The `max_length` of the first VARCHAR field called `name`, if any. */
  function MaxLength(fields: seq<FieldSchema>, name: Field): Option<nat>
  {
    if fields == [] then None
    else if fields[0].VarChar? && fields[0].name == name then Some(fields[0].maxLength)
    else MaxLength(fields[1..], name)
  }

  /** The `dim` of the first FLOAT_VECTOR field called `name`, if any. */
  function Dim(fields: seq<FieldSchema>, name: Field): Option<nat>
  {
    if fields == [] then None
    else if fields[0].FloatVector? && fields[0].name == name then Some(fields[0].dim)
    else Dim(fields[1..], name)
  }
}
