/** The ingest shards: queues of single and batch requests, the loop that serves them, what is answered and what
    is applied. */
module ShardLoop {
  import opened Entries
  import opened WriteAheadLog
  import opened BloomFilter
  import opened MemoryTable
  import opened Ingestion
  import opened Lsm
  import opened AnyTies
  import opened Core
  import IngestionAgent

  /** A single request waiting for its reply, named by its response channel. */
  datatype Single = Single(id: nat, req: IngestReq)

  datatype BatchReq = BatchReq(id: nat, items: seq<IngestReq>)

  /** An answer, nil if `ok`, together with the request it is for and the time at which that was served. */
  datatype Reply = SingleReply(single: Single, now: Int64, ok: bool) | BatchReply(batch: BatchReq, now: Int64, ok: bool)

  const DRAIN_LIMIT: nat := 100

  /** One shard: its queues and the replies it has sent, in order of service. */
  datatype Shard = Shard(singles: seq<Single>, batches: seq<BatchReq>, replies: seq<Reply>)

  /** A turn reads the clock, writes the log with some outcome, and if it then finds the memtable full rotates it
      to a new log that opens or not. Steps of other agents may come in between. */
  datatype Move =
    | Submit(single: Single)
    | SubmitBatch(batch: BatchReq)
    | ServeSingles(now: Int64, outcome: WriteOutcome, opens: bool)
    | ServeBatch(now: Int64, outcome: WriteOutcome, opens: bool)
    | Other(step: Step)

  // ---------- What a turn takes, answers and does to the store ----------

  /** How many singles one turn takes: the received one and at most 100 more that are already there. */
  function Turn(singles: seq<Single>): (n: nat)
    requires singles != []
    ensures 1 <= n <= |singles| && n <= 101 && (n == |singles| || n == 101)
  {
    var available := |singles| - 1;
    1 + if available < DRAIN_LIMIT then available else DRAIN_LIMIT
  }

  function Reqs(ss: seq<Single>): (items: seq<IngestReq>)
    ensures |items| == |ss| && forall i :: 0 <= i < |ss| ==> items[i] == ss[i].req
  {
    seq(|ss|, i requires 0 <= i < |ss| => ss[i].req)
  }

  function Answers(ss: seq<Single>, now: Int64, ok: bool): (rs: seq<Reply>)
    ensures |rs| == |ss| && forall i :: 0 <= i < |ss| ==> rs[i] == SingleReply(ss[i], now, ok)
  {
    seq(|ss|, i requires 0 <= i < |ss| => SingleReply(ss[i], now, ok))
  }

  /** The items a move serves. */
  function Served(sh: Shard, mv: Move): seq<IngestReq> {
    match mv
    case ServeSingles(_, _, _) => if sh.singles == [] then [] else Reqs(sh.singles[..Turn(sh.singles)])
    case ServeBatch(_, _, _) => if sh.batches == [] then [] else sh.batches[0].items
    case _ => []
  }

  /** Singles are answered with the fate of their log write; a batch is always answered nil. */
  function Next(c: Config, sh: Shard, mv: Move): Shard {
    match mv
    case Submit(s) => sh.(singles := sh.singles + [s])
    case SubmitBatch(b) => sh.(batches := sh.batches + [b])
    case ServeSingles(now, outcome, _) =>
      if sh.singles == [] then sh
      else
        var n := Turn(sh.singles);
        sh.(singles := sh.singles[n..],
            replies := sh.replies + Answers(sh.singles[..n], now, Accepted(c, Apply(Served(sh, mv), now, outcome))))
    case ServeBatch(now, _, _) =>
      if sh.batches == [] then sh
      else sh.(batches := sh.batches[1..], replies := sh.replies + [BatchReply(sh.batches[0], now, true)])
    case Other(_) => sh
  }

  /** The steps that serving some items takes: none for no items; otherwise the batch is logged and applied, and
      a memtable that is full then is rotated. */
  ghost function TurnSteps(c: Config, s: State, items: seq<IngestReq>, now: Int64, outcome: WriteOutcome, opens: bool): seq<Step> {
    if items == [] then []
    else
      [Apply(items, now, outcome)]
      + (if Accepted(c, Apply(items, now, outcome)) && Bytes(s.mem + ToMap(LiveEntries(items, now))) >= c.maxBytes
         then [Rotate(opens)] else [])
  }

  ghost function MoveSteps(c: Config, sh: Shard, s: State, mv: Move): seq<Step> {
    match mv
    case ServeSingles(now, outcome, opens) => TurnSteps(c, s, Served(sh, mv), now, outcome, opens)
    case ServeBatch(now, outcome, opens) => TurnSteps(c, s, Served(sh, mv), now, outcome, opens)
    case Other(step) => [step]
    case _ => []
  }

  const IDLE := Shard([], [], [])

  function Moves(c: Config, mvs: seq<Move>): Shard {
    if mvs == [] then IDLE else Next(c, Moves(c, mvs[..|mvs| - 1]), mvs[|mvs| - 1])
  }

  /** The steps of the machine that a run of the shard takes, the store being s at its start. */
  ghost function StepsOf(c: Config, s: State, mvs: seq<Move>): seq<Step> {
    if mvs == [] then []
    else
      var before, mv := mvs[..|mvs| - 1], mvs[|mvs| - 1];
      StepsOf(c, s, before) + MoveSteps(c, Moves(c, before), Lsm.Run(c, s, StepsOf(c, s, before)), mv)
  }

  /** One more move of the shard takes the store on by that move's steps. */
  lemma OneMoreMove(c: Config, s: State, mvs: seq<Move>, mv: Move)
    ensures Moves(c, mvs + [mv]) == Next(c, Moves(c, mvs), mv)
    ensures var t := Lsm.Run(c, s, StepsOf(c, s, mvs));
      Lsm.Run(c, s, StepsOf(c, s, mvs + [mv])) == Lsm.Run(c, t, MoveSteps(c, Moves(c, mvs), t, mv))
  {
    hide Next, MoveSteps;
    assert (mvs + [mv])[..|mvs|] == mvs;
    RunAppend(c, s, StepsOf(c, s, mvs), MoveSteps(c, Moves(c, mvs), Lsm.Run(c, s, StepsOf(c, s, mvs)), mv));
  }

  // ---------- Every request is answered once, in order ----------

  function Submitted(mvs: seq<Move>): seq<Single> {
    if mvs == [] then []
    else Submitted(mvs[..|mvs| - 1]) + (if mvs[|mvs| - 1].Submit? then [mvs[|mvs| - 1].single] else [])
  }

  function SubmittedBatches(mvs: seq<Move>): seq<BatchReq> {
    if mvs == [] then []
    else SubmittedBatches(mvs[..|mvs| - 1]) + (if mvs[|mvs| - 1].SubmitBatch? then [mvs[|mvs| - 1].batch] else [])
  }

  function SinglesOf(rs: seq<Reply>): seq<Single> {
    if rs == [] then []
    else SinglesOf(rs[..|rs| - 1]) + (if rs[|rs| - 1].SingleReply? then [rs[|rs| - 1].single] else [])
  }

  function BatchesOf(rs: seq<Reply>): seq<BatchReq> {
    if rs == [] then []
    else BatchesOf(rs[..|rs| - 1]) + (if rs[|rs| - 1].BatchReply? then [rs[|rs| - 1].batch] else [])
  }

  lemma ReplySnoc(rs: seq<Reply>, r: Reply)
    ensures SinglesOf(rs + [r]) == SinglesOf(rs) + (if r.SingleReply? then [r.single] else [])
    ensures BatchesOf(rs + [r]) == BatchesOf(rs) + (if r.BatchReply? then [r.batch] else [])
  {
    assert (rs + [r])[..|rs|] == rs;
  }

  lemma {:induction false} AnswersParts(rs: seq<Reply>, ss: seq<Single>, now: Int64, ok: bool)
    ensures SinglesOf(rs + Answers(ss, now, ok)) == SinglesOf(rs) + ss
    ensures BatchesOf(rs + Answers(ss, now, ok)) == BatchesOf(rs)
    decreases |ss|
  {
    hide SinglesOf, BatchesOf;
    if ss == [] {
      assert rs + Answers(ss, now, ok) == rs;
    } else {
      var n := |ss| - 1;
      var r := SingleReply(ss[n], now, ok);
      AnswersParts(rs, ss[..n], now, ok);
      ReplySnoc(rs + Answers(ss[..n], now, ok), r);
      assert rs + Answers(ss, now, ok) == (rs + Answers(ss[..n], now, ok)) + [r];
      assert SinglesOf(rs) + ss == (SinglesOf(rs) + ss[..n]) + [ss[n]];
      assert BatchesOf(rs) + [] == BatchesOf(rs);
    }
  }

  lemma SinglesTurn(c: Config, sh: Shard, mv: Move)
    requires mv.ServeSingles? && sh.singles != []
    ensures var sh' := Next(c, sh, mv);
      && SinglesOf(sh'.replies) + sh'.singles == SinglesOf(sh.replies) + sh.singles
      && BatchesOf(sh'.replies) + sh'.batches == BatchesOf(sh.replies) + sh.batches
  {
    hide SinglesOf, BatchesOf, Served, Accepted;
    var n := Turn(sh.singles);
    AnswersParts(sh.replies, sh.singles[..n], mv.now, Accepted(c, Apply(Served(sh, mv), mv.now, mv.outcome)));
    assert sh.singles == sh.singles[..n] + sh.singles[n..];
  }

  lemma BatchTurn(c: Config, sh: Shard, mv: Move)
    requires mv.ServeBatch? && sh.batches != []
    ensures var sh' := Next(c, sh, mv);
      && SinglesOf(sh'.replies) + sh'.singles == SinglesOf(sh.replies) + sh.singles
      && BatchesOf(sh'.replies) + sh'.batches == BatchesOf(sh.replies) + sh.batches
  {
    hide SinglesOf, BatchesOf;
    ReplySnoc(sh.replies, BatchReply(sh.batches[0], mv.now, true));
    assert sh.batches == [sh.batches[0]] + sh.batches[1..];
  }

  /** In any run the singles answered and those still queued are exactly those submitted, in order. */
  lemma {:induction false} SinglesConserved(c: Config, mvs: seq<Move>)
    ensures var sh := Moves(c, mvs); SinglesOf(sh.replies) + sh.singles == Submitted(mvs)
    decreases |mvs|
  {
    hide SinglesOf, Served, Accepted;
    if mvs == [] {
      NoReplies();
    } else {
      var sh, mv := Moves(c, mvs[..|mvs| - 1]), mvs[|mvs| - 1];
      SinglesConserved(c, mvs[..|mvs| - 1]);
      match mv {
        case Submit(s) => assert SinglesOf(sh.replies) + (sh.singles + [s]) == (SinglesOf(sh.replies) + sh.singles) + [s];
        case ServeSingles(_, _, _) => if sh.singles != [] { SinglesTurn(c, sh, mv); }
        case ServeBatch(_, _, _) => if sh.batches != [] { BatchTurn(c, sh, mv); }
        case _ =>
      }
    }
  }

  lemma NoReplies()
    ensures SinglesOf([]) == [] && BatchesOf([]) == []
  {
  }

  /** The same for batches. */
  lemma {:induction false} BatchesConserved(c: Config, mvs: seq<Move>)
    ensures var sh := Moves(c, mvs); BatchesOf(sh.replies) + sh.batches == SubmittedBatches(mvs)
    decreases |mvs|
  {
    hide BatchesOf, Served, Accepted;
    if mvs == [] {
      NoReplies();
    } else {
      var sh, mv := Moves(c, mvs[..|mvs| - 1]), mvs[|mvs| - 1];
      BatchesConserved(c, mvs[..|mvs| - 1]);
      match mv {
        case SubmitBatch(b) => assert BatchesOf(sh.replies) + (sh.batches + [b]) == (BatchesOf(sh.replies) + sh.batches) + [b];
        case ServeSingles(_, _, _) => if sh.singles != [] { SinglesTurn(c, sh, mv); }
        case ServeBatch(_, _, _) => if sh.batches != [] { BatchTurn(c, sh, mv); }
        case _ =>
      }
    }
  }

  function Ids(ss: seq<Single>): (ids: seq<nat>)
    ensures |ids| == |ss|
  {
    seq(|ss|, i requires 0 <= i < |ss| => ss[i].id)
  }

  function BatchIds(bs: seq<BatchReq>): (ids: seq<nat>)
    ensures |ids| == |bs|
  {
    seq(|bs|, i requires 0 <= i < |bs| => bs[i].id)
  }

  lemma CountIds(a: seq<Single>, b: seq<Single>, x: seq<BatchReq>, y: seq<BatchReq>, id: nat)
    ensures multiset(Ids(a + b))[id] == multiset(Ids(a))[id] + multiset(Ids(b))[id]
    ensures multiset(BatchIds(x + y))[id] == multiset(BatchIds(x))[id] + multiset(BatchIds(y))[id]
  {
    assert Ids(a + b) == Ids(a) + Ids(b);
    assert BatchIds(x + y) == BatchIds(x) + BatchIds(y);
  }

  /** A request or a shard's part of a batch, submitted once to a shard, is at any moment either still queued
      once and unanswered, or answered exactly once and no longer queued. */
  lemma AnsweredOnce(c: Config, mvs: seq<Move>, id: nat)
    ensures var sh := Moves(c, mvs);
      && multiset(Ids(SinglesOf(sh.replies)))[id] + multiset(Ids(sh.singles))[id] == multiset(Ids(Submitted(mvs)))[id]
      && multiset(BatchIds(BatchesOf(sh.replies)))[id] + multiset(BatchIds(sh.batches))[id]
         == multiset(BatchIds(SubmittedBatches(mvs)))[id]
  {
    hide Moves, SinglesOf, BatchesOf, Submitted, SubmittedBatches;
    SinglesConserved(c, mvs);
    BatchesConserved(c, mvs);
    var sh := Moves(c, mvs);
    CountIds(SinglesOf(sh.replies), sh.singles, BatchesOf(sh.replies), sh.batches, id);
  }

  /** What dispatching a batch does to one shard: its part is submitted, if it has one. */
  function Dispatched(items: seq<IngestReq>, hash: Hash, shards: nat, s: nat, id: nat): seq<Move>
    requires shards > 0
  {
    var part := ShardList(items, hash, shards, s);
    if part == [] then [] else [SubmitBatch(BatchReq(id, part))]
  }

  lemma {:induction false} SubmittedAppend(a: seq<Move>, b: seq<Move>)
    ensures SubmittedBatches(a + b) == SubmittedBatches(a) + SubmittedBatches(b)
    decreases |b|
  {
    if b == [] {
      assert a + b == a;
      assert SubmittedBatches(a) + [] == SubmittedBatches(a);
    } else {
      assert (a + b)[..|a + b| - 1] == a + b[..|b| - 1];
      SubmittedAppend(a, b[..|b| - 1]);
    }
  }

  /** The history of one shard around the dispatch of a batch whose id is not used before or after. */
  ghost predicate DispatchOnce(before: seq<Move>, after: seq<Move>, id: nat) {
    id !in BatchIds(SubmittedBatches(before)) && id !in BatchIds(SubmittedBatches(after))
  }

  lemma SubmittedOnce(before: seq<Move>, after: seq<Move>, items: seq<IngestReq>, hash: Hash, shards: nat, s: nat, id: nat)
    requires shards > 0 && DispatchOnce(before, after, id)
    ensures multiset(BatchIds(SubmittedBatches(before + Dispatched(items, hash, shards, s, id) + after)))[id]
      == if ShardList(items, hash, shards, s) == [] then 0 else 1
  {
    hide ShardList, SubmittedBatches;
    var mid := Dispatched(items, hash, shards, s, id);
    SubmittedAppend(before + mid, after);
    SubmittedAppend(before, mid);
    CountIds([], [], SubmittedBatches(before + mid), SubmittedBatches(after), id);
    CountIds([], [], SubmittedBatches(before), SubmittedBatches(mid), id);
    assert id !in multiset(BatchIds(SubmittedBatches(before))) && id !in multiset(BatchIds(SubmittedBatches(after)));
    SubmittedMid(items, hash, shards, s, id);
  }

  lemma SubmittedMid(items: seq<IngestReq>, hash: Hash, shards: nat, s: nat, id: nat)
    requires shards > 0
    ensures var part := ShardList(items, hash, shards, s);
      SubmittedBatches(Dispatched(items, hash, shards, s, id)) == if part == [] then [] else [BatchReq(id, part)]
  {
    hide ShardList;
    var part := ShardList(items, hash, shards, s);
    if part != [] {
      var mv := SubmitBatch(BatchReq(id, part));
      assert [mv][..0] == [];
      assert SubmittedBatches([mv]) == SubmittedBatches([]) + [mv.batch];
    }
  }

  /** A dispatched batch: whatever else the shards have been and will be asked, once none of them has the batch queued
      any more, each shard that got a part of it has answered it exactly once, and no other shard has. */
  lemma OneReplyPerActiveShard(c: Config, before: seq<seq<Move>>, after: seq<seq<Move>>, items: seq<IngestReq>, hash: Hash, id: nat)
    requires |before| == |after| > 0
    requires forall s :: 0 <= s < |before| ==> DispatchOnce(before[s], after[s], id)
    requires forall s :: 0 <= s < |before| ==>
      id !in BatchIds(Moves(c, before[s] + Dispatched(items, hash, |before|, s, id) + after[s]).batches)
    ensures forall s :: 0 <= s < |before| ==>
      multiset(BatchIds(BatchesOf(Moves(c, before[s] + Dispatched(items, hash, |before|, s, id) + after[s]).replies)))[id]
      == (if ShardList(items, hash, |before|, s) == [] then 0 else 1)
  {
    hide ShardList, SubmittedBatches, Moves, BatchesOf, Dispatched, DispatchOnce;
    forall s | 0 <= s < |before|
      ensures multiset(BatchIds(BatchesOf(Moves(c, before[s] + Dispatched(items, hash, |before|, s, id) + after[s]).replies)))[id]
        == (if ShardList(items, hash, |before|, s) == [] then 0 else 1)
    {
      var history := before[s] + Dispatched(items, hash, |before|, s, id) + after[s];
      SubmittedOnce(before[s], after[s], items, hash, |before|, s, id);
      AnsweredOnce(c, history, id);
      assert id !in multiset(BatchIds(Moves(c, history).batches));
    }
  }

  // ---------- What is answered is what is applied ----------

  function ItemsOf(r: Reply): seq<IngestReq> {
    match r
    case SingleReply(s, _, _) => [s.req]
    case BatchReply(b, _, _) => b.items
  }

  /** The entries of the requests that were answered, in order of service, as far as they are chosen. */
  function EntriesOf(rs: seq<Reply>, chosen: seq<bool>): seq<Entry>
    requires |rs| == |chosen|
  {
    if rs == [] then []
    else
      var n := |rs| - 1;
      EntriesOf(rs[..n], chosen[..n]) + (if chosen[n] then LiveEntries(ItemsOf(rs[n]), rs[n].now) else [])
  }

  function Oks(rs: seq<Reply>): (oks: seq<bool>)
    ensures |oks| == |rs| && forall i :: 0 <= i < |rs| ==> oks[i] == rs[i].ok
  {
    seq(|rs|, i requires 0 <= i < |rs| => rs[i].ok)
  }

  /** The entries of the requests answered nil, in order of service. */
  function Promised(rs: seq<Reply>): seq<Entry> {
    EntriesOf(rs, Oks(rs))
  }

  function Repeat(b: bool, n: nat): (r: seq<bool>)
    ensures |r| == n && forall i :: 0 <= i < n ==> r[i] == b
  {
    seq(n, i => b)
  }

  /** For every reply of a run, whether the machine accepted the write that served its request. */
  function Fates(c: Config, mvs: seq<Move>): seq<bool> {
    if mvs == [] then []
    else
      var before, mv := mvs[..|mvs| - 1], mvs[|mvs| - 1];
      var sh := Moves(c, before);
      Fates(c, before) +
        (match mv
         case ServeSingles(now, outcome, _) =>
           if sh.singles == [] then [] else Repeat(Accepted(c, Apply(Served(sh, mv), now, outcome)), Turn(sh.singles))
         case ServeBatch(now, outcome, _) =>
           if sh.batches == [] then [] else [Accepted(c, Apply(Served(sh, mv), now, outcome))]
         case _ => [])
  }

  lemma LiveAppend(a: seq<IngestReq>, b: seq<IngestReq>, now: Int64)
    ensures LiveEntries(a + b, now) == LiveEntries(a, now) + LiveEntries(b, now) && LiveEntries([], now) == []
  {
    hide CreateEntry;
  }

  lemma EntriesSnoc(rs: seq<Reply>, chosen: seq<bool>, r: Reply, b: bool)
    requires |rs| == |chosen|
    ensures EntriesOf(rs + [r], chosen + [b]) == EntriesOf(rs, chosen) + (if b then LiveEntries(ItemsOf(r), r.now) else [])
  {
    hide LiveEntries;
    assert (rs + [r])[..|rs|] == rs && (chosen + [b])[..|chosen|] == chosen;
  }

  lemma {:induction false} EntriesOfAnswers(rs: seq<Reply>, chosen: seq<bool>, ss: seq<Single>, now: Int64, ok: bool, b: bool)
    requires |rs| == |chosen|
    ensures EntriesOf(rs + Answers(ss, now, ok), chosen + Repeat(b, |ss|))
      == EntriesOf(rs, chosen) + (if b then LiveEntries(Reqs(ss), now) else [])
    decreases |ss|
  {
    hide LiveEntries, EntriesOf;
    if ss == [] {
      assert rs + Answers(ss, now, ok) == rs && chosen + Repeat(b, 0) == chosen;
      assert Reqs(ss) == [];
      LiveAppend([], [], now);
    } else {
      var n := |ss| - 1;
      EntriesOfAnswers(rs, chosen, ss[..n], now, ok, b);
      var r := SingleReply(ss[n], now, ok);
      EntriesSnoc(rs + Answers(ss[..n], now, ok), chosen + Repeat(b, n), r, b);
      assert rs + Answers(ss, now, ok) == (rs + Answers(ss[..n], now, ok)) + [r];
      assert chosen + Repeat(b, |ss|) == (chosen + Repeat(b, n)) + [b];
      assert Reqs(ss) == Reqs(ss[..n]) + [ss[n].req];
      LiveAppend(Reqs(ss[..n]), [ss[n].req], now);
    }
  }

  lemma AppliedByTurn(c: Config, steps: seq<Step>, s: State, items: seq<IngestReq>, now: Int64, outcome: WriteOutcome, opens: bool)
    ensures AppliedBy(c, steps + TurnSteps(c, s, items, now, outcome, opens))
      == AppliedBy(c, steps) + (if Accepted(c, Apply(items, now, outcome)) then LiveEntries(items, now) else [])
  {
    hide LiveEntries, ToMap, Bytes;
    LiveAppend([], [], now);
    if items != [] {
      var apply := Apply(items, now, outcome);
      AppliedBySnoc(c, steps, apply);
      AppliedBySnoc(c, steps + [apply], Rotate(opens));
      assert steps + TurnSteps(c, s, items, now, outcome, opens) == steps + [apply]
        || steps + TurnSteps(c, s, items, now, outcome, opens) == (steps + [apply]) + [Rotate(opens)];
    } else {
      assert steps + TurnSteps(c, s, items, now, outcome, opens) == steps;
    }
  }

  /** Other agents apply no batches. */
  predicate OthersQuiet(mvs: seq<Move>) {
    forall i :: 0 <= i < |mvs| && mvs[i].Other? ==> !mvs[i].step.Apply?
  }

  /** In any run, over any store: what the machine applies is, in order of service, the entries of just those
      answered requests whose write it accepted. */
  lemma {:induction false} AppliedIsServed(c: Config, s: State, mvs: seq<Move>)
    requires OthersQuiet(mvs)
    ensures |Fates(c, mvs)| == |Moves(c, mvs).replies|
    ensures AppliedBy(c, StepsOf(c, s, mvs)) == EntriesOf(Moves(c, mvs).replies, Fates(c, mvs))
    decreases |mvs|
  {
    hide LiveEntries, EntriesOf, TurnSteps, Accepted, AppliedBy, Lsm.Run;
    if mvs == [] {
      EntriesOfNothing(c);
    } else {
      var before, mv := mvs[..|mvs| - 1], mvs[|mvs| - 1];
      var sh, steps, t := Moves(c, before), StepsOf(c, s, before), Lsm.Run(c, s, StepsOf(c, s, before));
      AppliedIsServed(c, s, before);
      match mv {
        case ServeSingles(now, outcome, opens) =>
          AppliedByTurn(c, steps, t, Served(sh, mv), now, outcome, opens);
          if sh.singles != [] {
            var ok := Accepted(c, Apply(Served(sh, mv), now, outcome));
            EntriesOfAnswers(sh.replies, Fates(c, before), sh.singles[..Turn(sh.singles)], now, ok, ok);
          } else {
            LiveAppend([], [], now);
          }
        case ServeBatch(now, outcome, opens) =>
          AppliedByTurn(c, steps, t, Served(sh, mv), now, outcome, opens);
          LiveAppend([], [], now);
          if sh.batches != [] {
            EntriesSnoc(sh.replies, Fates(c, before), BatchReply(sh.batches[0], now, true),
                        Accepted(c, Apply(Served(sh, mv), now, outcome)));
          }
        case Other(step) =>
          AppliedBySnoc(c, steps, step);
          NotAccepted(c, step);
        case _ => assert steps + [] == steps && Fates(c, before) + [] == Fates(c, before);
      }
    }
  }

  lemma NotAccepted(c: Config, step: Step)
    requires !step.Apply?
    ensures PutsOf(c, step) == []
  {
  }

  lemma EntriesOfNothing(c: Config)
    ensures EntriesOf([], []) == [] && AppliedBy(c, []) == []
  {
  }

  /** A single is answered nil exactly if its write was accepted; a batch always is. */
  lemma {:induction false} AnswersAreFates(c: Config, mvs: seq<Move>)
    ensures var rs := Moves(c, mvs).replies;
      && |Fates(c, mvs)| == |rs|
      && forall i :: 0 <= i < |rs| ==> if rs[i].SingleReply? then rs[i].ok == Fates(c, mvs)[i] else rs[i].ok
    decreases |mvs|
  {
    hide Accepted, Served;
    if mvs != [] { AnswersAreFates(c, mvs[..|mvs| - 1]); }
  }

  /** Every answered batch with items in it had its write accepted. */
  predicate NoBatchLost(c: Config, mvs: seq<Move>)
    requires |Fates(c, mvs)| == |Moves(c, mvs).replies|
  {
    var rs := Moves(c, mvs).replies;
    forall i :: 0 <= i < |rs| && rs[i].BatchReply? && rs[i].batch.items != [] ==> Fates(c, mvs)[i]
  }

  lemma {:induction false} FewerChosen(rs: seq<Reply>, a: seq<bool>, b: seq<bool>)
    requires |rs| == |a| == |b| && forall i :: 0 <= i < |rs| && a[i] ==> b[i]
    ensures |EntriesOf(rs, a)| <= |EntriesOf(rs, b)|
    ensures EntriesOf(rs, a) == EntriesOf(rs, b) <==> forall i :: 0 <= i < |rs| && ItemsOf(rs[i]) != [] ==> a[i] == b[i]
    ensures |EntriesOf(rs, a)| == |EntriesOf(rs, b)| <==> EntriesOf(rs, a) == EntriesOf(rs, b)
  {
    hide LiveEntries;
    if rs != [] {
      var n := |rs| - 1;
      FewerChosen(rs[..n], a[..n], b[..n]);
      LiveLength(ItemsOf(rs[n]), rs[n].now);
      assert forall i :: 0 <= i < n ==> rs[i] == rs[..n][i] && a[i] == a[..n][i] && b[i] == b[..n][i];
    }
  }

  lemma LiveLength(items: seq<IngestReq>, now: Int64)
    ensures |LiveEntries(items, now)| == |items|
  {
  }

  /** The requests answered nil are, in order of service, exactly those whose entries the machine has applied, if
      and only if every answered batch had its write accepted: the answers to singles never lie, those to batches
      may. */
  lemma NilMeansAppliedIff(c: Config, s: State, mvs: seq<Move>)
    requires OthersQuiet(mvs)
    ensures |Fates(c, mvs)| == |Moves(c, mvs).replies|
    ensures AppliedBy(c, StepsOf(c, s, mvs)) == Promised(Moves(c, mvs).replies) <==> NoBatchLost(c, mvs)
  {
    hide Moves, Fates, EntriesOf, StepsOf, AppliedBy;
    AppliedIsServed(c, s, mvs);
    AnswersAreFates(c, mvs);
    var rs := Moves(c, mvs).replies;
    FewerChosen(rs, Fates(c, mvs), Oks(rs));
  }

  lemma {:induction false} OnlySingles(c: Config, mvs: seq<Move>)
    requires forall i :: 0 <= i < |mvs| ==> !mvs[i].SubmitBatch?
    ensures var sh := Moves(c, mvs); sh.batches == [] && forall i :: 0 <= i < |sh.replies| ==> sh.replies[i].SingleReply?
    decreases |mvs|
  {
    hide Accepted, Served;
    if mvs != [] { OnlySingles(c, mvs[..|mvs| - 1]); }
  }

  /** Where only singles are submitted the requests answered nil are always exactly those applied. */
  lemma SinglesNilMeansApplied(c: Config, s: State, mvs: seq<Move>)
    requires OthersQuiet(mvs) && forall i :: 0 <= i < |mvs| ==> !mvs[i].SubmitBatch?
    ensures AppliedBy(c, StepsOf(c, s, mvs)) == Promised(Moves(c, mvs).replies)
  {
    hide Moves, Fates, Promised, StepsOf, AppliedBy;
    OnlySingles(c, mvs);
    NilMeansAppliedIff(c, s, mvs);
  }

  /** End to end: if no batch was lost and no commit of a compaction harms the key, what the store shows for it after
      a run is the last write of it that was answered nil, or what it showed at the start. */
  lemma AnsweredWritesAreTheStore(c: Config, s: State, mvs: seq<Move>, k: Key)
    requires Inv(s) && OthersQuiet(mvs) && Possible(c, s, StepsOf(c, s, mvs)) && CommitsHarmless(c, s, StepsOf(c, s, mvs), k)
    requires |Fates(c, mvs)| == |Moves(c, mvs).replies| && NoBatchLost(c, mvs)
    ensures Lookup(View(Lsm.Run(c, s, StepsOf(c, s, mvs))), k) == Lookup(View(s) + ToMap(Promised(Moves(c, mvs).replies)), k)
  {
    hide *;
    NilMeansAppliedIff(c, s, mvs);
    HarmlessShowsNewest(c, s, StepsOf(c, s, mvs), k);
  }

  // ---------- The shard loop in memory ----------

  class SingleQueue {
    var items: seq<Single>

    constructor ()
      ensures items == []
    {
      items := [];
    }

    /** A receive that does not block. */
    method Receive() returns (s: Single)
      requires items != []
      modifies this
      ensures s == old(items)[0] && items == old(items)[1..]
    {
      s := items[0];
      items := items[1..];
    }
  }

  /** Takes at most 100 requests that are already queued, in order, and never waits for more. */
  method DrainSingleQueue(queue: SingleQueue, batch: seq<Single>) returns (r: seq<Single>)
    modifies queue
    ensures var n := if |old(queue.items)| < 100 then |old(queue.items)| else 100;
      r == batch + old(queue.items)[..n] && queue.items == old(queue.items)[n..]
  {
    var limit := DRAIN_LIMIT;
    var available := |queue.items|;
    if available < limit { limit := available; }
    r := batch;
    for i := 0 to limit
      invariant limit <= |old(queue.items)|
      invariant r == batch + old(queue.items)[..i] && queue.items == old(queue.items)[i..]
    {
      var req := queue.Receive();
      r := r + [req];
    }
  }

  /** Logs and applies a batch and then rotates a full memtable: the steps of one turn. */
  method ProcessTurn(bb: SystemState, batch: seq<IngestReq>, now: Int64, outcome: WriteOutcome, opens: bool) returns (ok: bool)
    requires bb.Valid() && (bb.config.durable ==> bb.activeWal != null)
    requires Enabled(bb.config, bb.Abs(), Apply(batch, now, outcome))
    modifies bb`memTable, bb`immutableMem, bb`activeWal, bb`frozenWALs, bb`rotations
    modifies bb.activeWal, bb.memTable.shards, bb.keyCache
    ensures bb.Valid()
    ensures batch != [] ==> ok == Accepted(bb.config, Apply(batch, now, outcome))
    ensures bb.Abs() == Lsm.Run(bb.config, old(bb.Abs()), TurnSteps(bb.config, old(bb.Abs()), batch, now, outcome, opens))
  {
    hide *;
    bb.Parts();
    TurnRun(bb.config, bb.Abs(), batch, now, outcome, opens);
    ok := IngestionAgent.ProcessBatch(bb, batch, now, outcome);
    if |batch| > 0 && ok { IngestionAgent.CheckRotation(bb, opens); }
  }

  lemma TurnRun(c: Config, s: State, items: seq<IngestReq>, now: Int64, outcome: WriteOutcome, opens: bool)
    requires s.bloom.Valid() && Enabled(c, s, Apply(items, now, outcome))
    ensures var apply := Apply(items, now, outcome); var t := Do(c, s, apply);
      && t.bloom.Valid()
      && (Accepted(c, apply) && Bytes(t.mem) >= c.maxBytes ==> Enabled(c, t, Rotate(opens)))
      && Lsm.Run(c, s, TurnSteps(c, s, items, now, outcome, opens)) ==
         if items == [] then t
         else if Accepted(c, apply) && Bytes(t.mem) >= c.maxBytes then Do(c, t, Rotate(opens)) else t
  {
    hide ToMap, LiveEntries, Bytes, Encode, LogEntries, Forget, Bloom.Valid;
    var apply := Apply(items, now, outcome);
    if items == [] {
      IngestionAgent.EmptyBatch(c, s, now, outcome);
    } else {
      assert [apply, Rotate(opens)][..1] == [apply] && [apply][..0] == [];
      assert Lsm.Run(c, s, []) == s;
      assert Lsm.Run(c, s, [apply]) == Do(c, s, apply);
      assert [apply] + [Rotate(opens)] == [apply, Rotate(opens)] && [apply] + [] == [apply];
    }
  }

  /** What a turn on the single queue comes to. */
  lemma SinglesTurnUnfolds(c: Config, sh: Shard, s: State, mv: Move)
    requires mv.ServeSingles? && sh.singles != []
    ensures var batch := sh.singles[..Turn(sh.singles)]; var items := Reqs(batch);
      && Served(sh, mv) == items && items != []
      && Next(c, sh, mv) == Shard(sh.singles[|batch|..], sh.batches,
                                  sh.replies + Answers(batch, mv.now, Accepted(c, Apply(items, mv.now, mv.outcome))))
      && MoveSteps(c, sh, s, mv) == TurnSteps(c, s, items, mv.now, mv.outcome, mv.opens)
  {
    hide Accepted, TurnSteps;
  }

  lemma BatchTurnUnfolds(c: Config, sh: Shard, s: State, mv: Move)
    requires mv.ServeBatch? && sh.batches != []
    ensures Served(sh, mv) == sh.batches[0].items
    ensures Next(c, sh, mv) == Shard(sh.singles, sh.batches[1..], sh.replies + [BatchReply(sh.batches[0], mv.now, true)])
    ensures MoveSteps(c, sh, s, mv) == TurnSteps(c, s, sh.batches[0].items, mv.now, mv.outcome, mv.opens)
  {
    hide TurnSteps;
  }

  class IngestShard {
    const singleQueue: SingleQueue
    var batchQueue: seq<BatchReq>
    var replies: seq<Reply>

    ghost function Value(): Shard
      reads this, singleQueue
    {
      Shard(singleQueue.items, batchQueue, replies)
    }

    constructor ()
      ensures Value() == IDLE && fresh(singleQueue)
    {
      singleQueue := new SingleQueue();
      batchQueue, replies := [], [];
    }

    /** One turn of the shard loop on the single queue: drain, process, answer. */
    method TakeSingles(bb: SystemState, now: Int64, outcome: WriteOutcome, opens: bool)
      requires singleQueue.items != [] && bb.Valid() && (bb.config.durable ==> bb.activeWal != null)
      requires Enabled(bb.config, bb.Abs(), Apply(Served(Value(), ServeSingles(now, outcome, opens)), now, outcome))
      modifies this, singleQueue
      modifies bb`memTable, bb`immutableMem, bb`activeWal, bb`frozenWALs, bb`rotations
      modifies bb.activeWal, bb.memTable.shards, bb.keyCache
      ensures bb.Valid()
      ensures var mv := ServeSingles(now, outcome, opens);
        && Value() == Next(bb.config, old(Value()), mv)
        && bb.Abs() == Lsm.Run(bb.config, old(bb.Abs()), MoveSteps(bb.config, old(Value()), old(bb.Abs()), mv))
      ensures var n := if |old(singleQueue.items)| <= 101 then |old(singleQueue.items)| else 101;
        && singleQueue.items == old(singleQueue.items)[n..] && |replies| == |old(replies)| + n
        && (forall i :: 0 <= i < n ==>
              && replies[|old(replies)| + i].SingleReply?
              && replies[|old(replies)| + i].single == old(singleQueue.items)[i])
    {
      hide SystemState.Valid, SystemState.Abs, Enabled, TurnSteps, Lsm.Run, Accepted, Next, MoveSteps, Served, ShardsOf;
      SinglesTurnUnfolds(bb.config, Value(), bb.Abs(), ServeSingles(now, outcome, opens));
      ghost var n := Turn(singleQueue.items);
      var req := singleQueue.Receive();
      var itemBuffer := DrainSingleQueue(singleQueue, [req]);
      assert itemBuffer == old(singleQueue.items)[..n];
      bb.Undisturbed();
      var ok := ProcessTurn(bb, Reqs(itemBuffer), now, outcome, opens);
      label Processed:
      Notify(itemBuffer, now, ok);
      bb.Undisturbed@Processed();
    }

    /** `notifySuccess` and `notifyErrors`: one reply per request, in order. */
    method Notify(batch: seq<Single>, now: Int64, ok: bool)
      modifies this`replies
      ensures replies == old(replies) + Answers(batch, now, ok)
    {
      for i := 0 to |batch|
        invariant replies == old(replies) + Answers(batch, now, ok)[..i]
      {
        replies := replies + [SingleReply(batch[i], now, ok)];
      }
    }

    /** One turn on the batch queue: the answer is nil whatever has become of the batch. */
    method TakeBatch(bb: SystemState, now: Int64, outcome: WriteOutcome, opens: bool)
      requires batchQueue != [] && bb.Valid() && (bb.config.durable ==> bb.activeWal != null)
      requires Enabled(bb.config, bb.Abs(), Apply(Served(Value(), ServeBatch(now, outcome, opens)), now, outcome))
      modifies this
      modifies bb`memTable, bb`immutableMem, bb`activeWal, bb`frozenWALs, bb`rotations
      modifies bb.activeWal, bb.memTable.shards, bb.keyCache
      ensures bb.Valid()
      ensures var mv := ServeBatch(now, outcome, opens);
        && Value() == Next(bb.config, old(Value()), mv)
        && bb.Abs() == Lsm.Run(bb.config, old(bb.Abs()), MoveSteps(bb.config, old(Value()), old(bb.Abs()), mv))
    {
      hide SystemState.Valid, SystemState.Abs, Enabled, TurnSteps, Lsm.Run, Accepted, Next, MoveSteps, Served, ShardsOf;
      BatchTurnUnfolds(bb.config, Value(), bb.Abs(), ServeBatch(now, outcome, opens));
      var batch := batchQueue[0];
      batchQueue := batchQueue[1..];
      bb.Undisturbed();
      var _ := ProcessTurn(bb, batch.items, now, outcome, opens);
      label Processed:
      replies := replies + [BatchReply(batch, now, true)];
      bb.Undisturbed@Processed();
    }
  }

  // ---------- Dispatch ----------

  /** Hands every active shard its part, in any order of the shards. */
  method Dispatch(shards: seq<IngestShard>, batches: map<nat, seq<IngestReq>>, id: nat)
    requires forall i, j :: 0 <= i < j < |shards| ==> shards[i] != shards[j]
    requires forall s :: s in batches ==> s < |shards|
    modifies set i | 0 <= i < |shards| :: shards[i]
    ensures forall i :: 0 <= i < |shards| ==> shards[i].replies == old(shards[i].replies)
    ensures forall i :: 0 <= i < |shards| ==>
      shards[i].batchQueue == old(shards[i].batchQueue) + if i in batches then [BatchReq(id, batches[i])] else []
  {
    var todo := batches.Keys;
    while todo != {}
      invariant todo <= batches.Keys
      invariant forall i :: 0 <= i < |shards| ==> shards[i].replies == old(shards[i].replies)
      invariant forall i :: 0 <= i < |shards| ==>
        shards[i].batchQueue == old(shards[i].batchQueue) + if i in batches && i !in todo then [BatchReq(id, batches[i])] else []
    {
      var s :| s in todo;
      shards[s].batchQueue := shards[s].batchQueue + [BatchReq(id, batches[s])];
      todo := todo - {s};
    }
  }

  /** Splits a batch by key hash and hands every active shard its part: each shard makes just the moves of a dispatch. */
  method SubmitBatchIngestion(shards: seq<IngestShard>, items: seq<IngestReq>, hash: Hash, id: nat, ghost c: Config)
    requires |shards| > 0 && forall i, j :: 0 <= i < j < |shards| ==> shards[i] != shards[j]
    modifies set i | 0 <= i < |shards| :: shards[i]
    ensures forall i, mvs :: 0 <= i < |shards| && old(shards[i].Value()) == Moves(c, mvs) ==>
      shards[i].Value() == Moves(c, mvs + Dispatched(items, hash, |shards|, i, id))
  {
    hide ShardList, Moves;
    if |items| == 0 {
      NoParts(hash, |shards|);
      forall i, mvs | 0 <= i < |shards| && shards[i].Value() == Moves(c, mvs)
        ensures shards[i].Value() == Moves(c, mvs + Dispatched(items, hash, |shards|, i, id))
      {
        assert mvs + [] == mvs;
      }
      return;
    }
    var batches := GroupItemsByShard(items, hash, |shards|);
    OwnShards(items, hash, |shards|);
    Dispatch(shards, batches, id);
    forall i, mvs | 0 <= i < |shards| && old(shards[i].Value()) == Moves(c, mvs)
      ensures shards[i].Value() == Moves(c, mvs + Dispatched(items, hash, |shards|, i, id))
    {
      DispatchedMoves(c, mvs, items, hash, |shards|, i, id);
    }
  }

  lemma DispatchedMoves(c: Config, mvs: seq<Move>, items: seq<IngestReq>, hash: Hash, shards: nat, s: nat, id: nat)
    requires shards > 0
    ensures var part := ShardList(items, hash, shards, s);
      Moves(c, mvs + Dispatched(items, hash, shards, s, id)) ==
        if part == [] then Moves(c, mvs)
        else Moves(c, mvs).(batches := Moves(c, mvs).batches + [BatchReq(id, part)])
  {
    hide ShardList;
    var part := ShardList(items, hash, shards, s);
    if part == [] {
      assert mvs + [] == mvs;
    } else {
      assert (mvs + [SubmitBatch(BatchReq(id, part))])[..|mvs|] == mvs;
    }
  }

  lemma NoParts(hash: Hash, shards: nat)
    requires shards > 0
    ensures forall i :: ShardList([], hash, shards, i) == []
  {
  }

  lemma OwnShards(items: seq<IngestReq>, hash: Hash, shards: nat)
    requires shards > 0
    ensures forall id: nat :: ShardList(items, hash, shards, id) != [] ==> id < shards
  {
    forall id: nat | ShardList(items, hash, shards, id) != [] ensures id < shards { OwnShard(items, hash, shards, id, 0); }
  }
}
