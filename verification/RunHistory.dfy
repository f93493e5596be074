/** The `node_runs` table of one run: no row, a row whose success is NULL, or a row with a verdict. */
module RunHistory {
  import opened Common
  import opened Runs

  type NodeRuns = map<string, Option<bool>>

  /** Insert, and on conflict do nothing. */
  function RecordDispatched(rows: NodeRuns, node: string): NodeRuns {
    if node in rows then rows else rows[node := None]
  }

  /** Insert, and on conflict overwrite the verdict. */
  function RecordRun(rows: NodeRuns, node: string, success: bool): NodeRuns {
    rows[node := Some(success)]
  }

  /** The status a row stands for when a lost run is rebuilt. */
  function StatusFromRow(rows: NodeRuns, node: string): NodeStatus {
    if node !in rows then Pending
    else match rows[node]
      case None => Running
      case Some(success) => if success then Success else Failed
  }

  /** For each of `nodes` the table lags behind the run but never overtakes it; in particular it
      shows no wrong verdict. When `exact`, it shows precisely the run's statuses, the nodes in
      `except` aside. */
  ghost predicate Tracks(rows: NodeRuns, statuses: Statuses, nodes: set<string>, exact: bool, except: set<string>) {
    forall n :: n in nodes && n in statuses ==> Follows(StatusFromRow(rows, n), statuses[n], exact && n !in except)
  }

  predicate Follows(row: NodeStatus, status: NodeStatus, exact: bool) {
    if exact then row == status else row.AtMost(status)
  }

  /** The nodes whose row is not ahead of these statuses. */
  function RowsBehind(rows: NodeRuns, statuses: Statuses): set<string> {
    set n | n in statuses && StatusFromRow(rows, n).AtMost(statuses[n])
  }

  /** What that asks of the row: none for a Pending node, no verdict for a Running one, and not
      the opposite verdict for a finished one. */
  lemma RowIsBehind(rows: NodeRuns, statuses: Statuses, n: string)
    requires n in statuses
    ensures n in RowsBehind(rows, statuses) <==>
      match statuses[n]
      case Pending => n !in rows
      case Running => n in rows ==> rows[n] == None
      case Success => n in rows ==> rows[n] != Some(false)
      case Failed => n in rows ==> rows[n] != Some(true)
  {
  }

  /** Moving one node up leaves the table behind on that node only. */
  lemma TracksMove(rows: NodeRuns, before: Statuses, nodes: set<string>, node: string, status: NodeStatus, exact: bool)
    requires node in before && before[node].AtMost(status)
    requires Tracks(rows, before, nodes, exact, {})
    ensures Tracks(rows, before[node := status], nodes, exact, {node})
    ensures exact && node in nodes && before[node] == Pending ==> node !in rows
  {
  }

  lemma TracksEverywhere(rows: NodeRuns, statuses: Statuses, nodes: set<string>, node: string)
    requires Tracks(rows, statuses, nodes, false, {node})
    ensures Tracks(rows, statuses, nodes, false, {})
  {
  }

  lemma TracksJudged(rows: NodeRuns, before: Statuses, nodes: set<string>, node: string, success: bool, exact: bool)
    requires Tracks(rows, before, nodes, exact, {})
    ensures Tracks(rows, Judged(before, node, success), nodes, exact, {node})
  {
  }

  /** Writing a node's verdict catches up. */
  lemma TracksVerdict(rows: NodeRuns, statuses: Statuses, nodes: set<string>, node: string, exact: bool)
    requires node in statuses ==> statuses[node].Terminal()
    requires Tracks(rows, statuses, nodes, exact, {node})
    ensures Tracks(RecordRun(rows, node, Has(statuses, node, Success)), statuses, nodes, exact, {})
    ensures Tracks(rows, statuses, nodes, false, {})
  {
  }

  /** So does inserting a row at dispatch, when the node had none. */
  lemma TracksDispatch(rows: NodeRuns, statuses: Statuses, nodes: set<string>, node: string, exact: bool)
    requires Has(statuses, node, Running)
    requires exact && node in nodes ==> node !in rows
    requires Tracks(rows, statuses, nodes, exact, {node})
    ensures Tracks(RecordDispatched(rows, node), statuses, nodes, exact, {})
    ensures Tracks(rows, statuses, nodes, false, {})
  {
  }
}
