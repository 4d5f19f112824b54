/** The records shared by every service. */
module Models {
  import opened Wrappers

  datatype PipelineType = Normal | Live

  datatype DesiredState = WantRunning | WantStopped

  datatype Status = Created | Starting | Running | Stopping | Stopped | Failed

  datatype Column = Column(name: string, chType: string)

  /** The declared columns in order; their names are the keys of a dict. */
  type Schema = s: seq<Column> | DistinctColumns(s) witness []

  datatype PipelineConfig = PipelineConfig(
    pipelineId: string,
    pipelineType: PipelineType,
    userId: string,
    collectionNumber: int,
    tableName: string,
    schema: Schema,
    topic: string)

  datatype PipelineState = PipelineState(
    desired: DesiredState,
    status: Status,
    producer: Option<string>,
    lastError: string)

  predicate DistinctColumns(schema: seq<Column>) {
    forall i, j :: 0 <= i < j < |schema| ==> schema[i].name != schema[j].name
  }

  function ColumnNames(schema: seq<Column>): set<string> {
    set c | c in schema :: c.name
  }
}
