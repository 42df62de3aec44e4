/** The records of the metadata model that the writer and the deployer exchange. */
module MetaModel {
  import opened Wrappers

  const DATABASE: string := "DATABASE"
  const TABLE: string := "TABLE"
  const VIEW: string := "VIEW"
  const PROCEDURE: string := "PROCEDURE"
  const COLUMN: string := "COLUMN"
  const JOIN_INDEX: string := "JOIN INDEX"
  const INDEX: string := "INDEX"
  const MACRO: string := "MACRO"
  const TRIGGER: string := "TRIGGER"
  const FUNCTION: string := "FUNCTION"
  const TYPE: string := "TYPE"
  const AUTHORIZATION: string := "AUTHORIZATION"

  const TERADATA: string := "teradata"
  const ENV_PLACEHOLDER: string := "{{env}}"

  /** A moment in time, kept as the text the platform reports. */
  type Timestamp = string

  datatype ColumnDescription = ColumnDescription(
    columnName: string,
    columnComment: Option<string>,
    ddlStatement: Option<string>,
    dataType: Option<string>)

  datatype TableStatistic = TableStatistic(ddlStatement: string)

  /** One entry of `additional_details`: a column description, a statistic, or any
      other object, which the writer refuses. */
  datatype Detail =
    | Column(column: ColumnDescription)
    | Statistic(statistic: TableStatistic)
    | Unsupported(description: string)

  datatype IdentifiedObject = IdentifiedObject(
    databaseName: string,
    objectName: string,
    objectType: string,
    platformObjectType: string,
    createDatetime: Option<Timestamp>,
    lastAlterDatetime: Option<Timestamp>,
    creatorName: Option<string>,
    lastAlterName: Option<string>,
    inScope: bool)

  datatype DescribedObject = DescribedObject(
    identifiedObject: IdentifiedObject,
    objectCommentDdl: Option<string>,
    basicDefinition: Option<string>,
    additionalDetails: seq<Detail>)

  datatype DescribedTeradataDatabase = DescribedTeradataDatabase(
    ownerName: string,
    permSpace: int,
    spoolSpace: int,
    tempSpace: int,
    dbKind: string,
    platform: string)

  datatype DescribedDatabase = DescribedDatabase(
    databaseName: string,
    databaseTag: string,
    parentName: Option<string>,
    parentTag: string,
    commentString: Option<string>,
    databaseDetails: Option<DescribedTeradataDatabase>,
    parentTagsInScope: seq<string>)

  datatype DeploymentFailure = DeploymentFailure(
    path: Option<string>,
    statement: Option<string>,
    excMessage: Option<string>)
}
