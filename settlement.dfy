/**
 * The rules of the bet resolution pass: which bets are picked up, how the
 * winner of a task and of an episode is decided, and what settling one bet
 * writes. The pass itself, with its per-bet writes, is Store.ResolveBets.
 *
 * Winners are read from a snapshot of the episode's tasks. Deciding a
 * task-winner bet sorts that task's results in place in the snapshot, so
 * later bets of the same pass see the sorted order; Replay follows that
 * snapshot from bet to bet.
 */
module Settlement {
  import opened Wrappers
  import opened StableSort
  import opened Odds
  import opened Entities

  // ---------------------------------------------------------------------
  // Selecting the bets to resolve

  /** Bets of the episode (and of a named task) still pending. */
  predicate Selected(b: Bet, episodeId: string, taskId: string) {
    b.episodeId == episodeId && (taskId == "" || b.taskId == Some(taskId)) && b.status == Pending
  }

  /** Positions of the selected bets, in storage order. */
  function PendingIndices(bets: seq<Bet>, episodeId: string, taskId: string): (p: seq<nat>)
    ensures forall k :: 0 <= k < |p| ==> p[k] < |bets| && Selected(bets[p[k]], episodeId, taskId)
    ensures forall k, l :: 0 <= k < l < |p| ==> p[k] < p[l]
    ensures forall i :: 0 <= i < |bets| && Selected(bets[i], episodeId, taskId) ==> i in p
  {
    if |bets| == 0 then []
    else
      var n := |bets| - 1;
      PendingIndices(bets[..n], episodeId, taskId) + (if Selected(bets[n], episodeId, taskId) then [n] else [])
  }

  /** The bets at the given positions. */
  function Select(bets: seq<Bet>, p: seq<nat>): (r: seq<Bet>)
    requires forall k :: 0 <= k < |p| ==> p[k] < |bets|
    ensures |r| == |p|
    ensures forall k :: 0 <= k < |p| ==> r[k] == bets[p[k]]
  {
    if |p| == 0 then [] else Select(bets, p[..|p| - 1]) + [bets[p[|p| - 1]]]
  }

  /** The tasks fetched with the episode: all of them, or only the named one. */
  function ScopeTasks(ep: Episode, taskId: string): (r: seq<Task>)
    ensures taskId == "" ==> r == ep.tasks
    ensures taskId != "" ==> forall t :: t in r <==> t in ep.tasks && t.id == taskId
  {
    if taskId == "" then ep.tasks else TasksWithId(ep.tasks, taskId)
  }

  function TasksWithId(tasks: seq<Task>, id: string): (r: seq<Task>)
    ensures forall t :: t in r <==> t in tasks && t.id == id
  {
    if |tasks| == 0 then []
    else
      var n := |tasks| - 1;
      TasksWithId(tasks[..n], id) + (if tasks[n].id == id then [tasks[n]] else [])
  }

  // ---------------------------------------------------------------------
  // Task winner

  function ResultScore(r: TaskResult): int {
    r.score
  }

  /** The contestant of the first result in stable descending score order. */
  function TaskWinner(rs: seq<TaskResult>): Option<string> {
    if |rs| == 0 then None else Some(SortDesc(rs, ResultScore)[0].contestantId)
  }

  /** Position of the first task whose id is the bet's task (Array.prototype.find). */
  function FindTask(tasks: seq<Task>, taskId: Option<string>): (r: Option<nat>)
    ensures r.Some? ==> r.value < |tasks| && Some(tasks[r.value].id) == taskId
                        && forall j :: 0 <= j < r.value ==> Some(tasks[j].id) != taskId
    ensures r.None? ==> forall j :: 0 <= j < |tasks| ==> Some(tasks[j].id) != taskId
  {
    if |tasks| == 0 then None
    else if Some(tasks[0].id) == taskId then Some(0)
    else
      match FindTask(tasks[1..], taskId)
      case None => None
      case Some(k) => Some(k + 1)
  }

  /** A task's winner is the first result holding the top score; none without results. */
  lemma TaskWinnerIsFirstTopScore(rs: seq<TaskResult>)
    ensures |rs| == 0 <==> TaskWinner(rs).None?
    ensures |rs| > 0 ==> TaskWinner(rs) == Some(rs[FirstMax(rs, ResultScore)].contestantId)
  {
    if |rs| > 0 {
      SortHead(rs, ResultScore);
    }
  }

  // ---------------------------------------------------------------------
  // Episode points, accumulated in first-seen order

  /** One key of the per-contestant points record, in insertion order. */
  datatype Standing = Standing(contestantId: string, points: int)

  function StandingPoints(s: Standing): int {
    s.points
  }

  /** Position of the contestant's key in the record, or -1. */
  function KeyIndex(table: seq<Standing>, c: string): (i: int)
    ensures -1 <= i < |table|
    ensures i >= 0 ==> table[i].contestantId == c && forall j :: 0 <= j < i ==> table[j].contestantId != c
    ensures i == -1 ==> forall j :: 0 <= j < |table| ==> table[j].contestantId != c
  {
    if |table| == 0 then -1
    else if table[0].contestantId == c then 0
    else
      var k := KeyIndex(table[1..], c);
      if k == -1 then -1 else k + 1
  }

  ghost predicate DistinctKeys(table: seq<Standing>) {
    forall i, j :: 0 <= i < j < |table| ==> table[i].contestantId != table[j].contestantId
  }

  /** The points recorded for c; 0 when c has no key. */
  function Lookup(table: seq<Standing>, c: string): int {
    var k := KeyIndex(table, c);
    if k >= 0 then table[k].points else 0
  }

  /** Adds a score to the contestant's key, creating the key at the end if new. */
  function AddScore(table: seq<Standing>, c: string, score: int): seq<Standing> {
    var k := KeyIndex(table, c);
    if k >= 0 then table[k := Standing(c, table[k].points + score)]
    else table + [Standing(c, score)]
  }

  function AddResults(table: seq<Standing>, rs: seq<TaskResult>): seq<Standing> {
    if |rs| == 0 then table
    else
      var n := |rs| - 1;
      AddScore(AddResults(table, rs[..n]), rs[n].contestantId, rs[n].score)
  }

  /** All results of the tasks, task after task. */
  function Flatten(tasks: seq<Task>): seq<TaskResult> {
    if |tasks| == 0 then [] else Flatten(tasks[..|tasks| - 1]) + tasks[|tasks| - 1].results
  }

  /** The per-contestant points of the episode, keys in first-seen order. */
  function EpisodePoints(tasks: seq<Task>): seq<Standing> {
    AddResults([], Flatten(tasks))
  }

  /** The contestant first in stable descending order of episode points. */
  function EpisodeWinner(tasks: seq<Task>): Option<string> {
    var table := EpisodePoints(tasks);
    if |table| == 0 then None else Some(SortDesc(table, StandingPoints)[0].contestantId)
  }

  /** Computes the per-contestant points with the handler's two nested loops. */
  method TallyEpisodePoints(tasks: seq<Task>) returns (table: seq<Standing>)
    ensures table == EpisodePoints(tasks)
  {
    table := [];
    var i := 0;
    while i < |tasks|
      invariant 0 <= i <= |tasks|
      invariant table == AddResults([], Flatten(tasks[..i]))
    {
      var rs := tasks[i].results;
      var j := 0;
      assert Flatten(tasks[..i]) + rs[..0] == Flatten(tasks[..i]);
      while j < |rs|
        invariant 0 <= j <= |rs|
        invariant table == AddResults([], Flatten(tasks[..i]) + rs[..j])
      {
        AddResultsStep([], Flatten(tasks[..i]), rs, j);
        table := AddScore(table, rs[j].contestantId, rs[j].score);
        j := j + 1;
      }
      FlattenStep(tasks, i);
      i := i + 1;
    }
    assert tasks[..i] == tasks;
  }

  /** One more result of the current task, added to the table. */
  lemma AddResultsStep(table: seq<Standing>, a: seq<TaskResult>, rs: seq<TaskResult>, j: nat)
    requires j < |rs|
    ensures AddResults(table, a + rs[..j + 1])
         == AddScore(AddResults(table, a + rs[..j]), rs[j].contestantId, rs[j].score)
  {
    assert (a + rs[..j + 1])[..|a| + j] == a + rs[..j];
  }

  /** One more task's results, after those of the tasks before it. */
  lemma FlattenStep(tasks: seq<Task>, i: nat)
    requires i < |tasks|
    ensures Flatten(tasks[..i + 1]) == Flatten(tasks[..i]) + tasks[i].results[..|tasks[i].results|]
  {
    assert tasks[..i + 1][..i] == tasks[..i];
    assert tasks[i].results[..|tasks[i].results|] == tasks[i].results;
  }

  // Reference definitions: a contestant's total and whether it scored at all.

  function Contribution(r: TaskResult, c: string): int {
    if r.contestantId == c then r.score else 0
  }

  /** Sum of the contestant's scores in the results. */
  function ResultsTotal(rs: seq<TaskResult>, c: string): int {
    if |rs| == 0 then 0 else ResultsTotal(rs[..|rs| - 1], c) + Contribution(rs[|rs| - 1], c)
  }

  /** Sum of the contestant's scores over every task. */
  function Total(tasks: seq<Task>, c: string): int {
    ResultsTotal(Flatten(tasks), c)
  }

  ghost predicate Appears(rs: seq<TaskResult>, c: string) {
    exists r :: r in rs && r.contestantId == c
  }

  /** Whether the contestant has a result in any of the tasks. */
  ghost predicate AppearsIn(tasks: seq<Task>, c: string) {
    Appears(Flatten(tasks), c)
  }

  /** Position of the contestant's first result, or -1. */
  function FirstSeen(rs: seq<TaskResult>, c: string): int {
    if |rs| == 0 then -1
    else
      var n := |rs| - 1;
      var k := FirstSeen(rs[..n], c);
      if k >= 0 then k else if rs[n].contestantId == c then n else -1
  }

  lemma {:induction false} FirstSeenBounds(rs: seq<TaskResult>, c: string)
    ensures -1 <= FirstSeen(rs, c) < |rs|
    ensures FirstSeen(rs, c) >= 0 <==> Appears(rs, c)
  {
    if |rs| > 0 {
      var n := |rs| - 1;
      FirstSeenBounds(rs[..n], c);
      assert rs == rs[..n] + [rs[n]];
      if Appears(rs, c) && !Appears(rs[..n], c) {
        var r :| r in rs && r.contestantId == c;
        assert r == rs[n];
      }
    }
  }

  /** Leads the episode: scored, and no scorer has a larger total. */
  ghost predicate Leads(tasks: seq<Task>, c: string) {
    AppearsIn(tasks, c) && forall d :: AppearsIn(tasks, d) ==> Total(tasks, d) <= Total(tasks, c)
  }

  /** Leads the episode alone: every other scorer has a smaller total. */
  ghost predicate SoleLeader(tasks: seq<Task>, c: string) {
    AppearsIn(tasks, c) && forall d :: AppearsIn(tasks, d) && d != c ==> Total(tasks, d) < Total(tasks, c)
  }

  lemma KeyIndexUnique(table: seq<Standing>, i: nat)
    requires DistinctKeys(table) && i < |table|
    ensures KeyIndex(table, table[i].contestantId) == i
  {
  }

  /** The key positions of a record depend only on its contestant column. */
  lemma KeyIndexSameKeys(a: seq<Standing>, b: seq<Standing>, d: string)
    requires |a| == |b| && forall j :: 0 <= j < |a| ==> a[j].contestantId == b[j].contestantId
    ensures KeyIndex(a, d) == KeyIndex(b, d)
  {
    var i, k := KeyIndex(a, d), KeyIndex(b, d);
    if i >= 0 && k >= 0 {
      assert !(i < k) && !(k < i);
    }
  }

  /** Appending a key leaves the earlier keys where they were and puts a new one last. */
  lemma KeyIndexAppend(table: seq<Standing>, s: Standing, d: string)
    ensures KeyIndex(table + [s], d)
         == if KeyIndex(table, d) >= 0 then KeyIndex(table, d) else if s.contestantId == d then |table| else -1
  {
    var t := table + [s];
    var i := KeyIndex(table, d);
    if i >= 0 {
      assert t[i].contestantId == d;
    } else if s.contestantId == d {
      assert t[|table|].contestantId == d;
    }
  }

  lemma AddScoreMeaning(table: seq<Standing>, c: string, score: int)
    requires DistinctKeys(table)
    ensures var t := AddScore(table, c, score);
      && DistinctKeys(t)
      && (forall d :: Lookup(t, d) == Lookup(table, d) + (if d == c then score else 0))
      && (forall d :: KeyIndex(t, d) >= 0 <==> KeyIndex(table, d) >= 0 || d == c)
      && (forall d :: KeyIndex(table, d) >= 0 ==> KeyIndex(t, d) == KeyIndex(table, d))
      && (KeyIndex(table, c) < 0 ==> KeyIndex(t, c) == |table|)
  {
    var t := AddScore(table, c, score);
    var k := KeyIndex(table, c);
    if k >= 0 {
      assert forall j :: 0 <= j < |t| ==> t[j].contestantId == table[j].contestantId;
      forall d ensures KeyIndex(t, d) == KeyIndex(table, d)
                    && Lookup(t, d) == Lookup(table, d) + (if d == c then score else 0) {
        KeyIndexSameKeys(t, table, d);
      }
    } else {
      forall d ensures KeyIndex(t, d)
                    == if KeyIndex(table, d) >= 0 then KeyIndex(table, d) else if c == d then |table| else -1 {
        KeyIndexAppend(table, Standing(c, score), d);
      }
    }
  }

  /** Adding results adds each contestant's total to its key; the keys are those that scored. */
  lemma {:induction false} AddResultsMeaning(table: seq<Standing>, rs: seq<TaskResult>)
    requires DistinctKeys(table)
    ensures var t := AddResults(table, rs);
      && DistinctKeys(t)
      && (forall d :: Lookup(t, d) == Lookup(table, d) + ResultsTotal(rs, d))
      && (forall d :: KeyIndex(t, d) >= 0 <==> KeyIndex(table, d) >= 0 || Appears(rs, d))
  {
    if |rs| > 0 {
      var n := |rs| - 1;
      AddResultsMeaning(table, rs[..n]);
      AddScoreMeaning(AddResults(table, rs[..n]), rs[n].contestantId, rs[n].score);
      assert rs == rs[..n] + [rs[n]];
      forall d ensures Appears(rs, d) <==> Appears(rs[..n], d) || rs[n].contestantId == d {
        if Appears(rs, d) {
          var r :| r in rs && r.contestantId == d;
          assert r in rs[..n] || r == rs[n];
        }
      }
    }
  }

  /** In the record built from a result stream, keys appear in order of first result. */
  lemma {:induction false} KeysInFirstSeenOrder(rs: seq<TaskResult>)
    ensures var t := AddResults([], rs);
      forall i :: 0 <= i < |t| ==> FirstSeen(rs, t[i].contestantId) >= 0
    ensures var t := AddResults([], rs);
      forall i, j :: 0 <= i < j < |t| ==> FirstSeen(rs, t[i].contestantId) < FirstSeen(rs, t[j].contestantId)
  {
    if |rs| > 0 {
      var n := |rs| - 1;
      var prev := AddResults([], rs[..n]);
      var t := AddResults([], rs);
      KeysInFirstSeenOrder(rs[..n]);
      AddResultsMeaning([], rs[..n]);
      AddScoreMeaning(prev, rs[n].contestantId, rs[n].score);
      FirstSeenBounds(rs[..n], rs[n].contestantId);
      forall i | 0 <= i < |prev| ensures t[i].contestantId == prev[i].contestantId {
        KeyIndexUnique(prev, i);
        KeyIndexUnique(t, KeyIndex(t, prev[i].contestantId));
      }
      forall i | 0 <= i < |prev|
        ensures 0 <= FirstSeen(rs, t[i].contestantId) == FirstSeen(rs[..n], prev[i].contestantId) < n
      {
        FirstSeenBounds(rs[..n], prev[i].contestantId);
      }
      if KeyIndex(prev, rs[n].contestantId) < 0 {
        assert |t| == |prev| + 1;
        assert !Appears(rs[..n], rs[n].contestantId);
        assert FirstSeen(rs, t[|prev|].contestantId) == n;
      } else {
        assert |t| == |prev|;
      }
      forall i, j | 0 <= i < j < |t|
        ensures FirstSeen(rs, t[i].contestantId) < FirstSeen(rs, t[j].contestantId)
      {
        if j < |prev| {
          assert FirstSeen(rs[..n], prev[i].contestantId) < FirstSeen(rs[..n], prev[j].contestantId);
        }
      }
    }
  }

  lemma {:induction false} ResultsTotalAppend(a: seq<TaskResult>, b: seq<TaskResult>, c: string)
    ensures ResultsTotal(a + b, c) == ResultsTotal(a, c) + ResultsTotal(b, c)
    decreases |b|
  {
    if |b| == 0 {
      assert a + b == a;
    } else {
      var n := |b| - 1;
      assert (a + b)[..|a + b| - 1] == a + b[..n];
      ResultsTotalAppend(a, b[..n], c);
    }
  }

  /** The record holds, per scoring contestant, exactly its total. */
  lemma EpisodePointsMeaning(tasks: seq<Task>)
    ensures var t := EpisodePoints(tasks);
      && DistinctKeys(t)
      && (forall d :: Lookup(t, d) == Total(tasks, d))
      && (forall d :: KeyIndex(t, d) >= 0 <==> AppearsIn(tasks, d))
  {
    AddResultsMeaning([], Flatten(tasks));
  }

  /** The episode winner scored and no contestant has a larger total. */
  lemma EpisodeWinnerLeads(tasks: seq<Task>, w: string)
    requires EpisodeWinner(tasks) == Some(w)
    ensures Leads(tasks, w)
  {
    var t := EpisodePoints(tasks);
    EpisodePointsMeaning(tasks);
    SortHead(t, StandingPoints);
    var m := FirstMax(t, StandingPoints);
    KeyIndexUnique(t, m);
    forall d | AppearsIn(tasks, d) ensures Total(tasks, d) <= Total(tasks, w) {
      var i := KeyIndex(t, d);
      assert StandingPoints(t[i]) <= StandingPoints(t[m]);
    }
  }

  /**
   * Ties go to the first seen: any other contestant with the winner's total
   * had its first result later in the stream of results.
   */
  lemma EpisodeWinnerFirstSeen(tasks: seq<Task>, w: string, d: string)
    requires EpisodeWinner(tasks) == Some(w)
    requires AppearsIn(tasks, d) && d != w && Total(tasks, d) == Total(tasks, w)
    ensures FirstSeen(Flatten(tasks), w) < FirstSeen(Flatten(tasks), d)
  {
    var t := EpisodePoints(tasks);
    EpisodePointsMeaning(tasks);
    SortHead(t, StandingPoints);
    var m := FirstMax(t, StandingPoints);
    KeyIndexUnique(t, m);
    var i := KeyIndex(t, d);
    assert Lookup(t, d) == t[i].points;
    assert Lookup(t, w) == t[m].points;
    assert t[m].contestantId == w && t[i].contestantId == d;
    TieComesLater(t, m, i);
    KeysInFirstSeenOrder(Flatten(tasks));
    assert t == AddResults([], Flatten(tasks));
    assert FirstSeen(Flatten(tasks), t[m].contestantId) < FirstSeen(Flatten(tasks), t[i].contestantId);
  }

  /** A key holding the top points under another id sits after the first maximum. */
  lemma TieComesLater(t: seq<Standing>, m: nat, i: nat)
    requires |t| > 0 && m == FirstMax(t, StandingPoints)
    requires i < |t| && t[i].points == t[m].points && t[i].contestantId != t[m].contestantId
    ensures m < i
  {
    assert i != m;
  }

  /** A contestant that leads alone is the episode winner; no results, no winner. */
  lemma SoleLeaderWins(tasks: seq<Task>, w: string)
    requires SoleLeader(tasks, w)
    ensures EpisodeWinner(tasks) == Some(w)
  {
    var t := EpisodePoints(tasks);
    EpisodePointsMeaning(tasks);
    assert KeyIndex(t, w) >= 0;
    var v :| EpisodeWinner(tasks) == Some(v);
    EpisodeWinnerLeads(tasks, v);
  }

  lemma EpisodeWinnerNone(tasks: seq<Task>)
    ensures EpisodeWinner(tasks).None? <==> |Flatten(tasks)| == 0
  {
    var t := EpisodePoints(tasks);
    EpisodePointsMeaning(tasks);
    if |Flatten(tasks)| > 0 {
      var r := Flatten(tasks)[0];
      assert AppearsIn(tasks, r.contestantId);
    }
  }

  // ---------------------------------------------------------------------
  // Deciding one bet, and the pass over all selected bets

  /** Whether a task-winner bet wins on the given tasks. */
  function TaskBetWins(tasks: seq<Task>, b: Bet): bool {
    match FindTask(tasks, b.taskId)
    case None => false
    case Some(i) => TaskWinner(tasks[i].results) == Some(b.betTarget)
  }

  /**
   * The verdict on one bet and the snapshot afterwards: a task-winner bet
   * leaves its task's results sorted; unknown bet types lose.
   */
  function Judge(tasks: seq<Task>, b: Bet): (bool, seq<Task>) {
    match b.betType
    case TaskWinnerBet =>
      (match FindTask(tasks, b.taskId)
       case None => (false, tasks)
       case Some(i) =>
         var sorted := SortDesc(tasks[i].results, ResultScore);
         (TaskWinner(tasks[i].results) == Some(b.betTarget), tasks[i := tasks[i].(results := sorted)]))
    case EpisodeWinnerBet => (EpisodeWinner(tasks) == Some(b.betTarget), tasks)
    case _ => (false, tasks)
  }

  /**
   * Decides one bet as the handler's switch does: a task-winner bet sorts its
   * task's results in the snapshot and compares the head with the target;
   * an episode-winner bet tallies the snapshot's results and compares the
   * head of the tally in descending order; any other type loses.
   */
  method JudgeBet(tasks: seq<Task>, b: Bet) returns (won: bool, after: seq<Task>)
    ensures (won, after) == Judge(tasks, b)
  {
    won := false;
    after := tasks;
    match b.betType {
      case TaskWinnerBet =>
        var found := FindTask(tasks, b.taskId);
        if found.Some? {
          var i := found.value;
          var sorted := SortDesc(tasks[i].results, ResultScore);
          after := tasks[i := tasks[i].(results := sorted)];
          won := |sorted| > 0 && sorted[0].contestantId == b.betTarget;
        }
      case EpisodeWinnerBet =>
        var points := TallyEpisodePoints(tasks);
        var ranked := SortDesc(points, StandingPoints);
        won := |ranked| > 0 && ranked[0].contestantId == b.betTarget;
      case _ =>
    }
  }

  /** The verdicts on the bets in order, and the snapshot after the last. */
  function Replay(tasks: seq<Task>, bs: seq<Bet>): (r: (seq<bool>, seq<Task>))
    ensures |r.0| == |bs|
  {
    if |bs| == 0 then ([], tasks)
    else
      var prev := Replay(tasks, bs[..|bs| - 1]);
      var step := Judge(prev.1, bs[|bs| - 1]);
      (prev.0 + [step.0], step.1)
  }

  /** Each task's results are as fetched, or sorted by score. */
  ghost predicate Resorted(t0: seq<Task>, t: seq<Task>) {
    |t| == |t0| &&
    forall i :: 0 <= i < |t| ==>
      t[i].id == t0[i].id &&
      (t[i].results == t0[i].results || t[i].results == SortDesc(t0[i].results, ResultScore))
  }

  lemma {:induction false} InsertTotal(x: TaskResult, s: seq<TaskResult>, c: string)
    ensures ResultsTotal(Insert(x, s, ResultScore), c) == Contribution(x, c) + ResultsTotal(s, c)
  {
    if |s| == 0 || ResultScore(x) >= ResultScore(s[0]) {
      ResultsTotalAppend([x], s, c);
      assert ResultsTotal([x], c) == Contribution(x, c) by {
        assert [x][..0] == [];
      }
    } else {
      InsertTotal(x, s[1..], c);
      ResultsTotalAppend([s[0]], Insert(x, s[1..], ResultScore), c);
      ResultsTotalAppend([s[0]], s[1..], c);
      assert [s[0]][..0] == [];
      assert s == [s[0]] + s[1..];
    }
  }

  /** Sorting results never changes a contestant's total. */
  lemma {:induction false} SortKeepsTotal(rs: seq<TaskResult>, c: string)
    ensures ResultsTotal(SortDesc(rs, ResultScore), c) == ResultsTotal(rs, c)
  {
    if |rs| > 0 {
      SortKeepsTotal(rs[1..], c);
      InsertTotal(rs[0], SortDesc(rs[1..], ResultScore), c);
      ResultsTotalAppend([rs[0]], rs[1..], c);
      assert [rs[0]][..0] == [];
      assert rs == [rs[0]] + rs[1..];
    }
  }

  lemma AppearsAppend(a: seq<TaskResult>, b: seq<TaskResult>, c: string)
    ensures Appears(a + b, c) <==> Appears(a, c) || Appears(b, c)
  {
    if Appears(a + b, c) {
      var r :| r in a + b && r.contestantId == c;
      assert r in a || r in b;
    }
    if Appears(a, c) {
      var r :| r in a && r.contestantId == c;
      assert r in a + b;
    }
    if Appears(b, c) {
      var r :| r in b && r.contestantId == c;
      assert r in a + b;
    }
  }

  lemma {:induction false} ResortedFlatten(t0: seq<Task>, t: seq<Task>)
    requires Resorted(t0, t)
    ensures forall c :: ResultsTotal(Flatten(t), c) == ResultsTotal(Flatten(t0), c)
    ensures forall c :: Appears(Flatten(t), c) <==> Appears(Flatten(t0), c)
  {
    if |t| > 0 {
      var n := |t| - 1;
      ResortedFlatten(t0[..n], t[..n]);
      SortSameElements(t0[n].results, ResultScore);
      assert t[..n][..n] == t[..n] && t0[..n][..n] == t0[..n];
      assert Flatten(t) == Flatten(t[..n]) + t[n].results;
      assert Flatten(t0) == Flatten(t0[..n]) + t0[n].results;
      forall c ensures Appears(Flatten(t), c) <==> Appears(Flatten(t0), c) {
        assert Appears(t[n].results, c) <==> Appears(t0[n].results, c);
        AppearsAppend(Flatten(t[..n]), t[n].results, c);
        AppearsAppend(Flatten(t0[..n]), t0[n].results, c);
      }
      forall c ensures ResultsTotal(Flatten(t), c) == ResultsTotal(Flatten(t0), c) {
        ResultsTotalAppend(Flatten(t[..n]), t[n].results, c);
        ResultsTotalAppend(Flatten(t0[..n]), t0[n].results, c);
        SortKeepsTotal(t0[n].results, c);
      }
    }
  }

  /** A re-sorted snapshot has the same tasks, task winners, totals and scorers. */
  lemma ResortedOutcomes(t0: seq<Task>, t: seq<Task>)
    requires Resorted(t0, t)
    ensures forall x :: FindTask(t, x) == FindTask(t0, x)
    ensures forall i :: 0 <= i < |t| ==> TaskWinner(t[i].results) == TaskWinner(t0[i].results)
    ensures forall c :: Total(t, c) == Total(t0, c)
    ensures forall c :: AppearsIn(t, c) <==> AppearsIn(t0, c)
  {
    ResortedFlatten(t0, t);
    forall x ensures FindTask(t, x) == FindTask(t0, x) {
      var a, b := FindTask(t, x), FindTask(t0, x);
      if a.Some? && b.Some? {
        assert !(a.value < b.value) && !(b.value < a.value);
      }
    }
    forall i | 0 <= i < |t| ensures TaskWinner(t[i].results) == TaskWinner(t0[i].results) {
      SortIdempotent(t0[i].results, ResultScore);
    }
  }

  lemma JudgeKeepsResorted(t0: seq<Task>, t: seq<Task>, b: Bet)
    requires Resorted(t0, t)
    ensures Resorted(t0, Judge(t, b).1)
  {
    if b.betType == TaskWinnerBet && FindTask(t, b.taskId).Some? {
      var i := FindTask(t, b.taskId).value;
      SortIdempotent(t0[i].results, ResultScore);
    }
  }

  lemma {:induction false} ReplayResorted(t0: seq<Task>, bs: seq<Bet>)
    ensures Resorted(t0, Replay(t0, bs).1)
  {
    if |bs| > 0 {
      ReplayResorted(t0, bs[..|bs| - 1]);
      JudgeKeepsResorted(t0, Replay(t0, bs[..|bs| - 1]).1, bs[|bs| - 1]);
    }
  }

  /** The k-th verdict is the judgement of the k-th bet on the snapshot the earlier bets left. */
  lemma {:induction false} ReplayAt(t0: seq<Task>, bs: seq<Bet>, k: nat)
    requires k < |bs|
    ensures Replay(t0, bs).0[k] == Judge(Replay(t0, bs[..k]).1, bs[k]).0
  {
    var n := |bs| - 1;
    if k < n {
      ReplayAt(t0, bs[..n], k);
      assert bs[..n][..k] == bs[..k];
    }
  }

  /**
   * What each verdict of a pass means, whatever came before it in the pass:
   * a task-winner bet wins exactly when its task is in scope and its target
   * holds the first top score there; an episode-winner bet wins only if its
   * target leads the summed scores, and always when it leads alone; every
   * other bet type loses.
   */
  lemma VerdictMeaning(tasks: seq<Task>, bs: seq<Bet>, k: nat)
    requires k < |bs|
    ensures bs[k].betType == TaskWinnerBet ==> (Replay(tasks, bs).0[k] <==> TaskBetWins(tasks, bs[k]))
    ensures bs[k].betType == EpisodeWinnerBet ==>
              (Replay(tasks, bs).0[k] ==> Leads(tasks, bs[k].betTarget)) &&
              (SoleLeader(tasks, bs[k].betTarget) ==> Replay(tasks, bs).0[k])
    ensures bs[k].betType != TaskWinnerBet && bs[k].betType != EpisodeWinnerBet ==> !Replay(tasks, bs).0[k]
  {
    ReplayAt(tasks, bs, k);
    var snap := Replay(tasks, bs[..k]).1;
    ReplayResorted(tasks, bs[..k]);
    ResortedOutcomes(tasks, snap);
    var b := bs[k];
    if b.betType == EpisodeWinnerBet {
      if Judge(snap, b).0 {
        EpisodeWinnerLeads(snap, b.betTarget);
      }
      if SoleLeader(tasks, b.betTarget) {
        assert SoleLeader(snap, b.betTarget);
        SoleLeaderWins(snap, b.betTarget);
      }
    }
  }

  /**
   * The order of a pass matters for a tied episode: a task-winner bet that
   * re-sorts a task's results in the snapshot changes which tied contestant
   * is seen first. With totals A 5 and B 5, A is seen first in the fetched
   * snapshot; once the first task is sorted, B is. So an episode-winner bet
   * on A wins when it is judged before that task-winner bet and loses after it.
   */
  lemma OrderChangesTiedVerdict()
    ensures var taskBet := Bet("u", "e", Some("t1"), TaskWinnerBet, "B", 10, 4, 20, Pending, None);
      var episodeBet := Bet("u", "e", None, EpisodeWinnerBet, "A", 10, 4, 20, Pending, None);
      && Replay(TiedTasks(), [episodeBet, taskBet]).0 == [true, true]
      && Replay(TiedTasks(), [taskBet, episodeBet]).0 == [true, false]
  {
    var tasks := TiedTasks();
    var taskBet := Bet("u", "e", Some("t1"), TaskWinnerBet, "B", 10, 4, 20, Pending, None);
    var episodeBet := Bet("u", "e", None, EpisodeWinnerBet, "A", 10, 4, 20, Pending, None);
    TiedWinners();
    TiedTaskBet(taskBet);
    assert [episodeBet, taskBet][..1] == [episodeBet];
    assert [taskBet, episodeBet][..1] == [taskBet];
    assert Judge(tasks, episodeBet) == (true, tasks);
    ReplayOne(tasks, episodeBet);
    ReplayOne(tasks, taskBet);
  }

  lemma ReplayOne(tasks: seq<Task>, b: Bet)
    ensures Replay(tasks, [b]) == ([Judge(tasks, b).0], Judge(tasks, b).1)
  {
    var none: seq<Bet> := [];
    assert [b][..0] == none;
    assert Replay(tasks, none) == ([], tasks);
    assert [] + [Judge(tasks, b).0] == [Judge(tasks, b).0];
  }

  /** Two tasks after which A and B are tied on 5, A scoring first. */
  function TiedTasks(): seq<Task> {
    [Task("t1", [TaskResult("A", 3), TaskResult("B", 5)]), Task("t2", [TaskResult("A", 2), TaskResult("B", 0)])]
  }

  /** The same tasks once the first one's results are sorted by score. */
  function TiedTasksSorted(): seq<Task> {
    [Task("t1", [TaskResult("B", 5), TaskResult("A", 3)]), Task("t2", [TaskResult("A", 2), TaskResult("B", 0)])]
  }

  lemma TiedTaskBet(b: Bet)
    requires b.betType == TaskWinnerBet && b.taskId == Some("t1") && b.betTarget == "B"
    ensures Judge(TiedTasks(), b) == (true, TiedTasksSorted())
  {
    var t1 := TiedTasks()[0];
    assert t1.results[1..] == [TaskResult("B", 5)];
    assert SortDesc([TaskResult("B", 5)], ResultScore) == [TaskResult("B", 5)];
    assert SortDesc(t1.results, ResultScore) == TiedTasksSorted()[0].results;
    assert FindTask(TiedTasks(), Some("t1")) == Some(0);
    assert TaskWinner(t1.results) == Some("B");
    assert TiedTasks()[0 := t1.(results := SortDesc(t1.results, ResultScore))] == TiedTasksSorted();
  }

  /** A wins the fetched snapshot, B the sorted one. */
  lemma TiedWinners()
    ensures EpisodeWinner(TiedTasks()) == Some("A")
    ensures EpisodeWinner(TiedTasksSorted()) == Some("B")
  {
    FetchedWinner();
    SortedWinner();
  }

  lemma FetchedWinner()
    ensures EpisodeWinner(TiedTasks()) == Some("A")
  {
    var rs := [TaskResult("A", 3), TaskResult("B", 5), TaskResult("A", 2), TaskResult("B", 0)];
    FlattenPair(TiedTasks());
    assert Flatten(TiedTasks()) == rs;
    TallyOfFour(rs, "A", "B", 3, 5, 2, 0);
    TwoKeyHead(Standing("A", 5), Standing("B", 5));
  }

  lemma SortedWinner()
    ensures EpisodeWinner(TiedTasksSorted()) == Some("B")
  {
    var rs := [TaskResult("B", 5), TaskResult("A", 3), TaskResult("A", 2), TaskResult("B", 0)];
    FlattenPair(TiedTasksSorted());
    assert Flatten(TiedTasksSorted()) == rs;
    TallyOfFourSwapped(rs, "B", "A", 5, 3, 2, 0);
    TwoKeyHead(Standing("B", 5), Standing("A", 5));
  }

  lemma FlattenPair(ts: seq<Task>)
    requires |ts| == 2
    ensures Flatten(ts) == ts[0].results + ts[1].results
  {
    assert ts[..1] == [ts[0]];
    assert ts[..1][..0] == [];
    assert Flatten(ts[..1]) == ts[0].results;
  }

  /** Tallying x, y, x, y: keys x then y with the summed points. */
  lemma TallyOfFour(rs: seq<TaskResult>, x: string, y: string, p: int, q: int, r: int, t: int)
    requires x != y
    requires rs == [TaskResult(x, p), TaskResult(y, q), TaskResult(x, r), TaskResult(y, t)]
    ensures AddResults([], rs) == [Standing(x, p + r), Standing(y, q + t)]
  {
    assert rs[..3][..2][..1] == [TaskResult(x, p)];
    assert rs[..3][..2] == [TaskResult(x, p), TaskResult(y, q)];
    assert rs[..3] == [TaskResult(x, p), TaskResult(y, q), TaskResult(x, r)];
    assert AddResults([], rs[..3][..2][..1]) == [Standing(x, p)];
    assert KeyIndex([Standing(x, p)], y) == -1;
    assert AddResults([], rs[..3][..2]) == [Standing(x, p), Standing(y, q)];
    assert KeyIndex([Standing(x, p), Standing(y, q)], x) == 0;
    assert AddResults([], rs[..3]) == [Standing(x, p + r), Standing(y, q)];
    assert KeyIndex([Standing(x, p + r), Standing(y, q)], y) == 1;
  }

  /** Tallying x, y, y, x: keys x then y with the summed points. */
  lemma TallyOfFourSwapped(rs: seq<TaskResult>, x: string, y: string, p: int, q: int, r: int, t: int)
    requires x != y
    requires rs == [TaskResult(x, p), TaskResult(y, q), TaskResult(y, r), TaskResult(x, t)]
    ensures AddResults([], rs) == [Standing(x, p + t), Standing(y, q + r)]
  {
    assert rs[..3][..2][..1] == [TaskResult(x, p)];
    assert rs[..3][..2] == [TaskResult(x, p), TaskResult(y, q)];
    assert rs[..3] == [TaskResult(x, p), TaskResult(y, q), TaskResult(y, r)];
    assert AddResults([], rs[..3][..2][..1]) == [Standing(x, p)];
    assert KeyIndex([Standing(x, p)], y) == -1;
    assert AddResults([], rs[..3][..2]) == [Standing(x, p), Standing(y, q)];
    assert KeyIndex([Standing(x, p), Standing(y, q)], y) == 1;
    assert AddResults([], rs[..3]) == [Standing(x, p), Standing(y, q + r)];
    assert KeyIndex([Standing(x, p), Standing(y, q + r)], x) == 0;
  }

  /** Sorting two keys with equal points keeps the first ahead. */
  lemma TwoKeyHead(a: Standing, b: Standing)
    requires a.points == b.points
    ensures SortDesc([a, b], StandingPoints) == [a, b]
  {
    assert [a, b][1..] == [b];
  }

  // ---------------------------------------------------------------------
  // Settling one bet

  /** One line of the pass's answer. */
  datatype Resolution = Resolution(betId: nat, won: bool, actualPayout: int)

  datatype ResolveError = MissingEpisodeId | EpisodeNotFound {
    function Status(): int {
      if MissingEpisodeId? then 400 else 404
    }
  }

  /** The bet once resolved: won with its potential payout, or lost with 0. */
  function Settle(b: Bet, won: bool): Bet {
    b.(status := if won then Won else Lost, actualPayout := Some(if won then b.potentialPayout else 0))
  }

  /** The ledger line a settlement writes: the credit of a paying win, else a zero loss marker. */
  function SettlementEntry(b: Bet, won: bool): Entry {
    if won && b.potentialPayout > 0 then Entry(b.userId, b.potentialPayout, BetWon, Some(b.episodeId), None)
    else Entry(b.userId, 0, BetLost, Some(b.episodeId), None)
  }

  function SettlementEntries(bs: seq<Bet>, verdicts: seq<bool>): (r: seq<Entry>)
    requires |verdicts| == |bs|
    ensures |r| == |bs|
    ensures forall k :: 0 <= k < |bs| ==> r[k] == SettlementEntry(bs[k], verdicts[k])
  {
    if |bs| == 0 then []
    else
      var n := |bs| - 1;
      SettlementEntries(bs[..n], verdicts[..n]) + [SettlementEntry(bs[n], verdicts[n])]
  }

  /**
   * Settling a well-formed pending bet yields a well-formed resolved bet, and
   * its ledger line moves the balance by the actual payout, never below 0.
   */
  lemma SettleWellFormed(b: Bet, won: bool)
    requires WellFormedBet(b) && b.status == Pending
    ensures WellFormedBet(Settle(b, won)) && Settle(b, won).status != Pending
    ensures SettlementEntry(b, won).amount == Settle(b, won).actualPayout.value
    ensures SettlementEntry(b, won).amount >= 0
    ensures SettlementEntry(b, won).kind == (if won then BetWon else BetLost)
  {
    PayoutBounds(b.amount, b.oddsHalves);
  }

  /** The answer of a resolution pass: one resolution per settled bet, in order. */
  function Resolutions(ids: seq<nat>, bs: seq<Bet>, verdicts: seq<bool>): (r: seq<Resolution>)
    requires |ids| == |bs| == |verdicts|
    ensures |r| == |ids|
    ensures forall k :: 0 <= k < |ids| ==>
      r[k] == Resolution(ids[k], verdicts[k], if verdicts[k] then bs[k].potentialPayout else 0)
  {
    if |ids| == 0 then []
    else
      var n := |ids| - 1;
      Resolutions(ids[..n], bs[..n], verdicts[..n])
        + [Resolution(ids[n], verdicts[n], if verdicts[n] then bs[n].potentialPayout else 0)]
  }

  /** The bets after settling bets[ps[k]] with verdict vs[k], one after another. */
  function SettleAll(bets: seq<Bet>, ps: seq<nat>, vs: seq<bool>): (r: seq<Bet>)
    requires |ps| == |vs| && forall k :: 0 <= k < |ps| ==> ps[k] < |bets|
    ensures |r| == |bets|
  {
    if |ps| == 0 then bets
    else
      var n := |ps| - 1;
      var prev := SettleAll(bets, ps[..n], vs[..n]);
      prev[ps[n] := Settle(prev[ps[n]], vs[n])]
  }

  /** A bet whose index is not among those settled is as it was. */
  lemma {:induction false} SettleAllUntouched(bets: seq<Bet>, ps: seq<nat>, vs: seq<bool>, i: nat)
    requires |ps| == |vs| && (forall k :: 0 <= k < |ps| ==> ps[k] < |bets|)
    requires i < |bets| && i !in ps
    ensures SettleAll(bets, ps, vs)[i] == bets[i]
  {
    if |ps| > 0 {
      var n := |ps| - 1;
      assert ps[n] in ps;
      assert i !in ps[..n];
      SettleAllUntouched(bets, ps[..n], vs[..n], i);
    }
  }

  /**
   * Settling bets at increasing indices, one after another: each settled
   * bet is its original settled with its own verdict, and every other bet
   * is unchanged.
   */
  lemma {:induction false} SettleAllMeaning(bets: seq<Bet>, ps: seq<nat>, vs: seq<bool>)
    requires |ps| == |vs| && (forall k :: 0 <= k < |ps| ==> ps[k] < |bets|)
    requires forall a, b :: 0 <= a < b < |ps| ==> ps[a] < ps[b]
    ensures forall k :: 0 <= k < |ps| ==> SettleAll(bets, ps, vs)[ps[k]] == Settle(bets[ps[k]], vs[k])
    ensures forall i :: 0 <= i < |bets| && i !in ps ==> SettleAll(bets, ps, vs)[i] == bets[i]
  {
    if |ps| > 0 {
      var n := |ps| - 1;
      SettleAllMeaning(bets, ps[..n], vs[..n]);
      var r := SettleAll(bets, ps, vs);
      forall k | 0 <= k < |ps| ensures r[ps[k]] == Settle(bets[ps[k]], vs[k]) {
        if k < n {
          assert ps[..n][k] == ps[k] && vs[..n][k] == vs[k];
          assert ps[k] < ps[n];
        } else {
          assert ps[n] !in ps[..n];
        }
      }
      forall i | 0 <= i < |bets| && i !in ps ensures r[i] == bets[i] {
        assert i !in ps[..n];
      }
    }
  }

  /** With no bet selected, the selection is empty. */
  lemma {:induction false} NothingPending(bets: seq<Bet>, episodeId: string, taskId: string)
    requires forall i :: 0 <= i < |bets| ==> !Selected(bets[i], episodeId, taskId)
    ensures PendingIndices(bets, episodeId, taskId) == []
  {
    if |bets| > 0 {
      NothingPending(bets[..|bets| - 1], episodeId, taskId);
    }
  }

  /** Once every selected bet is settled, whatever the verdicts, none is left pending. */
  lemma SettledNothingPending(bets: seq<Bet>, episodeId: string, taskId: string, vs: seq<bool>)
    requires |vs| == |PendingIndices(bets, episodeId, taskId)|
    ensures PendingIndices(SettleAll(bets, PendingIndices(bets, episodeId, taskId), vs), episodeId, taskId) == []
  {
    var p := PendingIndices(bets, episodeId, taskId);
    var r := SettleAll(bets, p, vs);
    SettleAllMeaning(bets, p, vs);
    forall i | 0 <= i < |r| ensures !Selected(r[i], episodeId, taskId) {
      if i in p {
        var j :| 0 <= j < |p| && p[j] == i;
      }
    }
    NothingPending(r, episodeId, taskId);
  }

  // One step of the resolution pass, for each of the sequences it extends.

  lemma ReplayStep(t0: seq<Task>, s: seq<Bet>, k: nat)
    requires k < |s|
    ensures var prev := Replay(t0, s[..k]);
      Replay(t0, s[..k + 1]) == (prev.0 + [Judge(prev.1, s[k]).0], Judge(prev.1, s[k]).1)
  {
    assert s[..k + 1][..k] == s[..k];
  }

  lemma SettleAllStep(bets: seq<Bet>, ps: seq<nat>, k: nat, vs: seq<bool>, w: bool)
    requires k < |ps| && |vs| == k && (forall j :: 0 <= j < |ps| ==> ps[j] < |bets|)
    ensures var prev := SettleAll(bets, ps[..k], vs);
      SettleAll(bets, ps[..k + 1], vs + [w]) == prev[ps[k] := Settle(prev[ps[k]], w)]
  {
    assert ps[..k + 1][..k] == ps[..k];
    assert (vs + [w])[..k] == vs;
  }

  lemma SettlementEntriesStep(l0: seq<Entry>, s: seq<Bet>, k: nat, vs: seq<bool>, w: bool)
    requires k < |s| && |vs| == k
    ensures l0 + SettlementEntries(s[..k + 1], vs + [w])
         == (l0 + SettlementEntries(s[..k], vs)) + [SettlementEntry(s[k], w)]
  {
    assert s[..k + 1][..k] == s[..k];
    assert (vs + [w])[..k] == vs;
  }

  lemma ResolutionsStep(ids: seq<nat>, s: seq<Bet>, k: nat, vs: seq<bool>, w: bool)
    requires k < |ids| && k < |s| && |vs| == k
    ensures Resolutions(ids[..k + 1], s[..k + 1], vs + [w])
         == Resolutions(ids[..k], s[..k], vs) + [Resolution(ids[k], w, if w then s[k].potentialPayout else 0)]
  {
    assert ids[..k + 1][..k] == ids[..k];
    assert s[..k + 1][..k] == s[..k];
    assert (vs + [w])[..k] == vs;
  }

  lemma TakeAll<T>(s: seq<T>)
    ensures s[..|s|] == s
  {
  }

  /**
   * The resolution pass after its first k selected bets: the verdicts and
   * the snapshot of tasks are the replay of those bets, each of them is settled,
   * the ledger carries their lines and the answer their resolutions.
   */
  ghost predicate PassAt(t0: seq<Task>, ps: seq<nat>, bets0: seq<Bet>, l0: seq<Entry>, k: nat,
                         vs: seq<bool>, tasks: seq<Task>, bets: seq<Bet>, ledger: seq<Entry>,
                         rs: seq<Resolution>)
  {
    && k <= |ps| && (forall j :: 0 <= j < |ps| ==> ps[j] < |bets0|)
    && var sel := Select(bets0, ps);
    && Replay(t0, sel[..k]) == (vs, tasks)
    && bets == SettleAll(bets0, ps[..k], vs)
    && ledger == l0 + SettlementEntries(sel[..k], vs)
    && rs == Resolutions(ps[..k], sel[..k], vs)
  }

  /** Before the first bet nothing is judged, settled or written. */
  lemma PassStart(t0: seq<Task>, ps: seq<nat>, bets0: seq<Bet>, l0: seq<Entry>)
    requires forall j :: 0 <= j < |ps| ==> ps[j] < |bets0|
    ensures PassAt(t0, ps, bets0, l0, 0, [], t0, bets0, l0, [])
  {
    assert Select(bets0, ps)[..0] == [];
    assert ps[..0] == [];
  }

  /** With the selection increasing, the next bet to settle is still as it was stored. */
  lemma PassNext(t0: seq<Task>, ps: seq<nat>, bets0: seq<Bet>, l0: seq<Entry>, k: nat,
                 vs: seq<bool>, tasks: seq<Task>, bets: seq<Bet>, ledger: seq<Entry>, rs: seq<Resolution>)
    requires PassAt(t0, ps, bets0, l0, k, vs, tasks, bets, ledger, rs) && k < |ps|
    requires forall a, b :: 0 <= a < b < |ps| ==> ps[a] < ps[b]
    ensures ps[k] < |bets| && bets[ps[k]] == bets0[ps[k]]
  {
    assert ps[k] !in ps[..k];
    SettleAllUntouched(bets0, ps[..k], vs, ps[k]);
  }

  /**
   * Judging the next selected bet on the current snapshot and settling it,
   * with its line and its resolution appended, is the pass after k + 1 bets.
   */
  lemma PassStep(t0: seq<Task>, ps: seq<nat>, bets0: seq<Bet>, l0: seq<Entry>, k: nat,
                 vs: seq<bool>, tasks: seq<Task>, bets: seq<Bet>, ledger: seq<Entry>, rs: seq<Resolution>,
                 w: bool, next: seq<Task>)
    requires PassAt(t0, ps, bets0, l0, k, vs, tasks, bets, ledger, rs) && k < |ps|
    requires ps[k] < |bets| && bets[ps[k]] == bets0[ps[k]]
    requires (w, next) == Judge(tasks, bets0[ps[k]])
    ensures PassAt(t0, ps, bets0, l0, k + 1, vs + [w], next,
                   bets[ps[k] := Settle(bets[ps[k]], w)],
                   ledger + [SettlementEntry(bets0[ps[k]], w)],
                   rs + [Resolution(ps[k], w, if w then bets0[ps[k]].potentialPayout else 0)])
  {
    var sel := Select(bets0, ps);
    ReplayStep(t0, sel, k);
    SettleAllStep(bets0, ps, k, vs, w);
    SettlementEntriesStep(l0, sel, k, vs, w);
    ResolutionsStep(ps, sel, k, vs, w);
  }

  /** After the last bet the pass has settled, written and answered for the whole selection. */
  lemma PassDone(t0: seq<Task>, ps: seq<nat>, bets0: seq<Bet>, l0: seq<Entry>,
                 vs: seq<bool>, tasks: seq<Task>, bets: seq<Bet>, ledger: seq<Entry>, rs: seq<Resolution>)
    requires PassAt(t0, ps, bets0, l0, |ps|, vs, tasks, bets, ledger, rs)
    ensures var sel := Select(bets0, ps);
      && vs == Replay(t0, sel).0
      && rs == Resolutions(ps, sel, vs)
      && bets == SettleAll(bets0, ps, vs)
      && ledger == l0 + SettlementEntries(sel, vs)
      && |l0| <= |ledger| && ledger[..|l0|] == l0
  {
    var sel := Select(bets0, ps);
    TakeAll(ps);
    TakeAll(sel);
    assert (l0 + SettlementEntries(sel, vs))[..|l0|] == l0;
  }
}
