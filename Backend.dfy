/** The stand-in agent of the web backend: it splits the raw task text at
    commas and turns each piece into a record with fixed effort and impact. */
module Backend {
  import opened Text

  /** One record of the reply: a title and three fixed fields. */
  datatype AgentRecord = AgentRecord(title: string, effort: string, impact: string, deadline: Option<string>)

  /** The record made from one comma-separated piece. Stripping only removes
      characters, so a title holds a comma only if its piece did. */
  function RecordOf(piece: string): (r: AgentRecord)
    ensures ',' in r.title ==> ',' in piece
    ensures r.effort == "medium" && r.impact == "high" && r.deadline == None
  {
    var title := Strip(piece);
    assert ',' in title ==> multiset(title)[','] > 0;
    AgentRecord(title, "medium", "high", None)
  }

  /** The records of a list of pieces, one per piece, in order. */
  function RecordsOf(pieces: seq<string>): (r: seq<AgentRecord>)
    ensures |r| == |pieces|
    ensures forall i :: 0 <= i < |r| ==> r[i].title == Strip(pieces[i])
    ensures forall i :: 0 <= i < |r| ==>
      r[i].effort == "medium" && r[i].impact == "high" && r[i].deadline == None
  {
    seq(|pieces|, i requires 0 <= i < |pieces| => RecordOf(pieces[i]))
  }

  /** The reply to `rawTasks`: one record per comma-separated piece, so one
      more record than there are commas; no title holds a comma. */
  function Records(rawTasks: string): (r: seq<AgentRecord>)
    ensures |r| == multiset(rawTasks)[','] + 1
    ensures forall i :: 0 <= i < |r| ==> ',' !in r[i].title
  {
    var pieces := Split(rawTasks, ',');
    SplitCount(rawTasks, ',');
    SplitPiecesExcludeSep(rawTasks, ',');
    assert forall i :: 0 <= i < |pieces| ==> pieces[i] in pieces;
    CommaFreeTitles(pieces);
    RecordsOf(pieces)
  }

  lemma CommaFreeTitles(pieces: seq<string>)
    requires forall i :: 0 <= i < |pieces| ==> ',' !in pieces[i]
    ensures forall i :: 0 <= i < |pieces| ==> ',' !in RecordsOf(pieces)[i].title
  {
    forall i | 0 <= i < |pieces| ensures ',' !in RecordsOf(pieces)[i].title {
      assert RecordsOf(pieces)[i].title == Strip(pieces[i]);
      assert multiset(pieces[i])[','] == 0;
    }
  }

  function Titles(records: seq<AgentRecord>): (r: seq<string>)
    ensures |r| == |records|
  {
    seq(|records|, i requires 0 <= i < |records| => records[i].title)
  }

  lemma RecordsOfAppend(pieces: seq<string>, piece: string)
    ensures RecordsOf(pieces + [piece]) == RecordsOf(pieces) + [RecordOf(piece)]
  {
    var a, b := RecordsOf(pieces + [piece]), RecordsOf(pieces) + [RecordOf(piece)];
    forall j | 0 <= j < |a| ensures a[j] == b[j] {
      if j < |pieces| {
        assert (pieces + [piece])[j] == pieces[j];
      }
    }
  }

  /** The loop of the stand-in agent over the pieces of the split text. */
  method RecordEach(tasks: seq<string>) returns (result: seq<AgentRecord>)
    ensures result == RecordsOf(tasks)
  {
    result := [];
    for i := 0 to |tasks|
      invariant result == RecordsOf(tasks[..i])
    {
      assert tasks[..i + 1] == tasks[..i] + [tasks[i]];
      RecordsOfAppend(tasks[..i], tasks[i]);
      result := result + [RecordOf(tasks[i])];
    }
    assert tasks[..|tasks|] == tasks;
  }

  /** `run_my_agent`: split the text at commas, then one record per piece. */
  method RunMyAgent(rawTasks: string) returns (result: seq<AgentRecord>)
    ensures result == Records(rawTasks)
    ensures |result| == multiset(rawTasks)[','] + 1
    ensures forall i :: 0 <= i < |result| ==> ',' !in result[i].title
  {
    var tasks := Split(rawTasks, ',');
    result := RecordEach(tasks);
  }

  /** Joining comma-free, already stripped titles with commas and sending
      them to the agent gives those titles back, in order. */
  lemma TitlesRoundTrip(titles: seq<string>)
    requires |titles| >= 1
    requires forall i :: 0 <= i < |titles| ==> ',' !in titles[i] && Strip(titles[i]) == titles[i]
    ensures Titles(Records(Join(titles, [',']))) == titles
  {
    SplitJoin(titles, ',');
  }
}
