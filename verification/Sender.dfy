/** The sending half of the SDK's agent sink: bounded buffer, chunking, retries and metrics
    (sim_sdk/sim_sdk/sink).  An event is identified with its envelope. */
module Sender {
  import opened Common
  import opened Wire
  import Ingest

  datatype DropPolicy = DropOldest | DropNewest | DropRandom | DropNone

  /** What the policy makes of a full, non-empty buffer. */
  ghost predicate Drops<T>(policy: DropPolicy, before: seq<T>, after: seq<T>)
    requires before != []
  {
    match policy
    case DropOldest => after == before[1..]
    case DropNewest => after == before[..|before| - 1]
    case DropRandom => exists k :: 0 <= k < |before| && after == before[..k] + before[k + 1..]
    case DropNone => after == before
  }

  class InMemoryBuffer<T> {
    var buffer: seq<T>
    const policy: DropPolicy

    constructor (policy: DropPolicy)
      ensures this.policy == policy && buffer == []
    {
      this.policy, buffer := policy, [];
    }

    /** `over`: the list's memory is at or above the limit. */
    method Append(e: T, over: bool)
      modifies this`buffer
      ensures !over || old(buffer) == [] ==> buffer == old(buffer) + [e]
      ensures over && old(buffer) != [] ==>
                |buffer| > 0 && buffer[|buffer| - 1] == e && Drops(policy, old(buffer), buffer[..|buffer| - 1])
    {
      if over && buffer != [] {
        Drop();
      }
      buffer := buffer + [e];
    }

    method Drop()
      requires buffer != []
      modifies this`buffer
      ensures Drops(policy, old(buffer), buffer)
    {
      match policy {
        case DropOldest => buffer := buffer[1..];
        case DropNewest => buffer := buffer[..|buffer| - 1];
        case DropRandom =>
          var k :| 0 <= k < |buffer|;
          buffer := buffer[..k] + buffer[k + 1..];
        case DropNone =>
      }
    }

    method Drain() returns (batch: seq<T>)
      modifies this`buffer
      ensures batch == old(buffer) && buffer == []
    {
      batch := buffer;
      buffer := [];
    }
  }

  datatype PostResult = Ack(accepted: nat, dropped: nat) | AgentUnavailable | OtherError

  datatype Outcome = Acknowledged(accepted: nat, dropped: nat) | Unreachable | Failed | NeverTried

  /** One request: what was posted and when, whether the agent ingested it, what the worker was told. */
  datatype Post = Post(chunk: seq<Envelope>, nowMs: int, ingested: bool, answer: PostResult)

  /** The agent's queue after a request, and after several. */
  ghost function AfterPost(cfg: Ingest.ValidatorConfig, capacity: nat, ch: seq<Envelope>, p: Post): seq<Envelope> {
    ch + if p.ingested then Ingest.Admits(cfg, p.chunk, p.nowMs, |ch|, capacity) else []
  }

  ghost function Received(cfg: Ingest.ValidatorConfig, capacity: nat, ch: seq<Envelope>, posts: seq<Post>)
    : seq<Envelope>
  {
    if posts == [] then ch
    else AfterPost(cfg, capacity, Received(cfg, capacity, ch, posts[..|posts| - 1]), posts[|posts| - 1])
  }

  lemma {:induction false} ReceivedConcat(cfg: Ingest.ValidatorConfig, capacity: nat, ch: seq<Envelope>,
                                          a: seq<Post>, b: seq<Post>)
    ensures Received(cfg, capacity, ch, a + b) == Received(cfg, capacity, Received(cfg, capacity, ch, a), b)
  {
    if b == [] {
      assert a + b == a;
    } else {
      ReceivedConcat(cfg, capacity, ch, a, b[..|b| - 1]);
      assert (a + b)[..|a + b| - 1] == a + b[..|b| - 1];
    }
  }

  /** The requests for one chunk: up to the first answer, and at most `1 + maxRetries`. */
  ghost predicate Attempts(tries: seq<Post>, chunk: seq<Envelope>, nowMs: int, maxRetries: int) {
    && (forall k :: 0 <= k < |tries| ==> tries[k].chunk == chunk && tries[k].nowMs == nowMs)
    && (forall k :: 0 <= k < |tries| - 1 ==> !tries[k].answer.Ack?)
    && |tries| <= (if maxRetries < 0 then 0 else 1 + maxRetries)
    && (|tries| < 1 + maxRetries ==> tries != [] && tries[|tries| - 1].answer.Ack?)
  }

  /** The last request decides. */
  function OutcomeOf(tries: seq<Post>): Outcome {
    if tries == [] then NeverTried
    else
      match tries[|tries| - 1].answer
      case Ack(a, d) => Acknowledged(a, d)
      case AgentUnavailable => Unreachable
      case OtherError => Failed
  }

  /** All chunks were sent one after the other. */
  ghost predicate Sends(rounds: seq<seq<Post>>, chunks: seq<seq<Envelope>>, nowMs: int, maxRetries: int) {
    && |rounds| == |chunks|
    && forall i :: 0 <= i < |rounds| ==> Attempts(rounds[i], chunks[i], nowMs, maxRetries)
  }

  /** Every chunk was answered at the first attempt. */
  ghost predicate AtOnce(rounds: seq<seq<Post>>) {
    forall i :: 0 <= i < |rounds| ==> |rounds[i]| == 1 && rounds[i][0].ingested
  }

  lemma IngestedAfter(cfg: Ingest.ValidatorConfig, capacity: nat, ch: seq<Envelope>, a: seq<Envelope>, p: Post)
    requires p.ingested
    ensures AfterPost(cfg, capacity, ch + Ingest.Admits(cfg, a, p.nowMs, |ch|, capacity), p) ==
            ch + Ingest.Admits(cfg, a + p.chunk, p.nowMs, |ch|, capacity)
  {
    var first := Ingest.Admits(cfg, a, p.nowMs, |ch|, capacity);
    Ingest.AdmitsConcat(cfg, a, p.chunk, p.nowMs, |ch|, capacity);
    Assoc(ch, first, Ingest.Admits(cfg, p.chunk, p.nowMs, |ch + first|, capacity));
  }

  /** If every chunk is ingested once, the agent has what one request with the whole batch would leave. */
  lemma {:induction false} ChunksAsOne(cfg: Ingest.ValidatorConfig, capacity: nat, ch: seq<Envelope>,
                                       rounds: seq<seq<Post>>, chunks: seq<seq<Envelope>>, nowMs: int, maxRetries: int)
    requires Sends(rounds, chunks, nowMs, maxRetries) && AtOnce(rounds)
    ensures Received(cfg, capacity, ch, Flatten(rounds)) ==
            ch + Ingest.Admits(cfg, Flatten(chunks), nowMs, |ch|, capacity)
  {
    if rounds != [] {
      var n := |rounds| - 1;
      var p := rounds[n][0];
      ChunksAsOne(cfg, capacity, ch, rounds[..n], chunks[..n], nowMs, maxRetries);
      assert Attempts(rounds[n], chunks[n], nowMs, maxRetries) && rounds[n] == [p];
      IngestedAfter(cfg, capacity, ch, Flatten(chunks[..n]), p);
    }
  }

  /** Consecutive chunks of at most `max` events, all but the last full. */
  ghost predicate Chunked<T>(chunks: seq<seq<T>>, max: nat) {
    forall i :: 0 <= i < |chunks| ==>
                  0 < |chunks[i]| <= max && (i < |chunks| - 1 ==> |chunks[i]| == max)
  }

  /** The first `i` events of a batch have been sent, chunk by chunk. */
  ghost predicate SentUpTo(batch: seq<Envelope>, i: nat, chunks: seq<seq<Envelope>>, rounds: seq<seq<Post>>,
                           nowMs: int, maxBatch: nat, maxRetries: int)
    requires i <= |batch|
  {
    && Flatten(chunks) == batch[..i] && Chunked(chunks, maxBatch) && Sends(rounds, chunks, nowMs, maxRetries)
    && (i < |batch| ==> forall k :: 0 <= k < |chunks| ==> |chunks[k]| == maxBatch)
  }

  lemma OneMoreChunk(batch: seq<Envelope>, i: nat, end: nat, chunks: seq<seq<Envelope>>, rounds: seq<seq<Post>>,
                     tries: seq<Post>, nowMs: int, maxBatch: nat, maxRetries: int)
    requires i < end <= |batch| && end - i <= maxBatch && (end < |batch| ==> end - i == maxBatch)
    requires SentUpTo(batch, i, chunks, rounds, nowMs, maxBatch, maxRetries)
    requires Attempts(tries, batch[i..end], nowMs, maxRetries)
    ensures SentUpTo(batch, end, chunks + [batch[i..end]], rounds + [tries], nowMs, maxBatch, maxRetries)
  {
    FlattenSnoc(chunks, batch[i..end]);
    assert batch[..end] == batch[..i] + batch[i..end];
  }

  /** What all rounds together posted, and what they left with the agent. */
  ghost predicate Posted(cfg: Ingest.ValidatorConfig, capacity: nat, before: seq<Post>, ch: seq<Envelope>,
                         rounds: seq<seq<Post>>, posts: seq<Post>, ch': seq<Envelope>)
  {
    posts == before + Flatten(rounds) && ch' == Received(cfg, capacity, ch, Flatten(rounds))
  }

  lemma OneMoreRound(cfg: Ingest.ValidatorConfig, capacity: nat, before: seq<Post>, ch: seq<Envelope>,
                     rounds: seq<seq<Post>>, posts: seq<Post>, ch': seq<Envelope>, tries: seq<Post>)
    requires Posted(cfg, capacity, before, ch, rounds, posts, ch')
    ensures Posted(cfg, capacity, before, ch, rounds + [tries], posts + tries, Received(cfg, capacity, ch', tries))
  {
    FlattenSnoc(rounds, tries);
    ReceivedConcat(cfg, capacity, ch, Flatten(rounds), tries);
    Assoc(before, Flatten(rounds), tries);
  }

  class SenderWorker {
    const buffer: InMemoryBuffer<Envelope>
    /** The agent on the other side, with the configuration of its ingest. */
    const agent: Ingest.Queue
    const validator: Ingest.ValidatorConfig
    const maxBatch: int
    const maxRetries: int
    /** The agent answers every request. */
    const reachable: bool
    var buffered: nat
    var sent: nat
    var dropped: nat
    var failures: nat
    var batches: nat
    var unavailable: nat
    /** All requests ever made. */
    ghost var posts: seq<Post>

    ghost predicate Valid()
      reads this, agent
    {
      agent.Valid()
    }

    constructor (buffer: InMemoryBuffer<Envelope>, agent: Ingest.Queue, validator: Ingest.ValidatorConfig,
                 maxBatch: int, maxRetries: int, reachable: bool)
      requires agent.Valid()
      ensures Valid() && this.buffer == buffer && this.agent == agent && this.validator == validator
      ensures this.maxBatch == maxBatch && this.maxRetries == maxRetries && this.reachable == reachable
      ensures buffered == sent == dropped == failures == batches == unavailable == 0 && posts == []
    {
      this.buffer, this.agent, this.validator, this.reachable := buffer, agent, validator, reachable;
      this.maxBatch, this.maxRetries := maxBatch, maxRetries;
      buffered, sent, dropped, failures, batches, unavailable := 0, 0, 0, 0, 0, 0;
      posts := [];
    }

    /** `AgentSink.emit`; `wake` tells whether the worker is notified. */
    method Emit(e: Envelope, over: bool) returns (wake: bool)
      modifies this`buffered, buffer
      ensures buffered == old(buffered) + 1
      ensures wake == (|buffer.buffer| >= maxBatch)
      ensures !over || old(buffer.buffer) == [] ==> buffer.buffer == old(buffer.buffer) + [e]
      ensures var now := buffer.buffer;
              over && old(buffer.buffer) != [] ==>
                |now| > 0 && now[|now| - 1] == e && Drops(buffer.policy, old(buffer.buffer), now[..|now| - 1])
    {
      buffer.Append(e, over);
      buffered := buffered + 1;
      wake := |buffer.buffer| >= maxBatch;
    }

    /** An answer, if one arrives, is the one `IngestBatch` gave; a request whose answer is lost may
        still have been ingested. */
    method PostBatch(chunk: seq<Envelope>, nowMs: int) returns (r: PostResult, ghost p: Post)
      requires Valid()
      modifies this`posts, agent
      ensures Valid() && posts == old(posts) + [p]
      ensures p.chunk == chunk && p.nowMs == nowMs && p.answer == r
      ensures agent.ch == AfterPost(validator, agent.capacity, old(agent.ch), p)
      ensures r.Ack? ==> p.ingested && r.accepted + r.dropped == |chunk| && |agent.ch| == |old(agent.ch)| + r.accepted
      ensures reachable ==> r.Ack?
    {
      r := OtherError;
      var arrives, answered := *, *;
      if reachable || arrives {
        ghost var held := |agent.ch|;
        var resp := Ingest.IngestBatch(validator, agent, chunk, nowMs);
        Ingest.AdmitsAccepted(validator, chunk, |chunk|, nowMs, held, agent.capacity);
        assert chunk[..|chunk|] == chunk;
        p := Post(chunk, nowMs, true, r);
        if reachable || answered {
          r := Ack(resp.accepted, resp.dropped);
        }
      } else {
        p := Post(chunk, nowMs, false, r);
      }
      if !r.Ack? {
        var unavailable := *;
        r := if unavailable then AgentUnavailable else OtherError;
      }
      p := p.(answer := r);
      posts := posts + [p];
    }

    /** However many attempts it takes, every event of a chunk is counted once: as sent if the agent
        acknowledged it, as dropped otherwise. */
    method SendChunk(chunk: seq<Envelope>, nowMs: int) returns (ghost tries: seq<Post>)
      requires Valid()
      modifies this, agent
      ensures Valid() && posts == old(posts) + tries && Attempts(tries, chunk, nowMs, maxRetries)
      ensures agent.ch == Received(validator, agent.capacity, old(agent.ch), tries)
      ensures reachable && maxRetries >= 0 ==> |tries| == 1 && tries[0].ingested
      ensures var outcome := OutcomeOf(tries);
              && (outcome.Acknowledged? ==> outcome.accepted + outcome.dropped == |chunk|)
              && sent == old(sent) + (if outcome.Acknowledged? then outcome.accepted else 0)
              && dropped == old(dropped) + (if outcome.Acknowledged? then outcome.dropped
                                            else if outcome.NeverTried? then 0 else |chunk|)
              && batches == old(batches) + (if outcome.Acknowledged? then 1 else 0)
              && failures == old(failures) + (if outcome.Unreachable? || outcome.Failed? then 1 else 0)
              && unavailable == old(unavailable) + (if outcome.Unreachable? then 1 else 0)
      ensures |agent.ch| - |old(agent.ch)| >= sent - old(sent) && buffered == old(buffered)
    {
      var attempt := 0;
      tries := [];
      while attempt < 1 + maxRetries
        invariant Valid() && attempt == |tries| <= (if maxRetries < 0 then 0 else 1 + maxRetries)
        invariant reachable ==> attempt == 0
        invariant posts == old(posts) + tries
        invariant forall k :: 0 <= k < |tries| ==>
                    tries[k].chunk == chunk && tries[k].nowMs == nowMs && !tries[k].answer.Ack?
        invariant attempt > maxRetries ==> tries == []
        invariant agent.ch == Received(validator, agent.capacity, old(agent.ch), tries) && |agent.ch| >= |old(agent.ch)|
        invariant sent == old(sent) && dropped == old(dropped) && batches == old(batches)
        invariant failures == old(failures) && unavailable == old(unavailable) && buffered == old(buffered)
        decreases 1 + maxRetries - attempt
      {
        var r;
        ghost var p;
        r, p := PostBatch(chunk, nowMs);
        tries := tries + [p];
        match r {
          case Ack(a, d) =>
            sent, dropped, batches := sent + a, dropped + d, batches + 1;
            return;
          case AgentUnavailable =>
            if attempt >= maxRetries {
              unavailable, failures, dropped := unavailable + 1, failures + 1, dropped + |chunk|;
              return;
            }
          case OtherError =>
            if attempt >= maxRetries {
              failures, dropped := failures + 1, dropped + |chunk|;
              return;
            }
        }
        attempt := attempt + 1;
      }
    }

    /** The drained batch is posted chunk by chunk, in order and each event in one chunk, and with at
        least one attempt per chunk every event is counted once.  An agent that answers has in the end
        what one request with the whole batch would leave.  A chunk size of 0 raises and loses the
        batch; a negative one sends nothing. */
    method DrainAndSend(nowMs: int)
      returns (raised: bool, ghost chunks: seq<seq<Envelope>>, ghost rounds: seq<seq<Post>>)
      requires Valid()
      modifies this, agent, buffer
      ensures Valid() && buffer.buffer == []
      ensures raised <==> maxBatch == 0 && old(buffer.buffer) != []
      ensures maxBatch <= 0 ==> chunks == [] && sent == old(sent) && dropped == old(dropped)
      ensures maxBatch > 0 ==> Flatten(chunks) == old(buffer.buffer) && Chunked(chunks, maxBatch)
      ensures posts == old(posts) + Flatten(rounds) && Sends(rounds, chunks, nowMs, maxRetries)
      ensures agent.ch == Received(validator, agent.capacity, old(agent.ch), Flatten(rounds))
      ensures reachable && maxBatch > 0 && maxRetries >= 0 ==>
                agent.ch == old(agent.ch) + Ingest.Admits(validator, old(buffer.buffer), nowMs, |old(agent.ch)|,
                                                          agent.capacity)
      ensures maxBatch > 0 && maxRetries >= 0 ==> sent + dropped == old(sent) + old(dropped) + |old(buffer.buffer)|
      ensures |agent.ch| - |old(agent.ch)| >= sent - old(sent)
    {
      var batch := buffer.Drain();
      chunks, rounds, raised := [], [], false;
      if batch == [] {
        return;
      }
      if maxBatch == 0 {
        return true, chunks, rounds;
      }
      if maxBatch < 0 {
        return;
      }
      var i := 0;
      while i < |batch|
        invariant 0 <= i <= |batch| && Valid() && buffer.buffer == []
        invariant SentUpTo(batch, i, chunks, rounds, nowMs, maxBatch, maxRetries)
        invariant Posted(validator, agent.capacity, old(posts), old(agent.ch), rounds, posts, agent.ch)
        invariant reachable && maxRetries >= 0 ==> AtOnce(rounds)
        invariant maxRetries >= 0 ==> sent + dropped == old(sent) + old(dropped) + i
        invariant |agent.ch| - |old(agent.ch)| >= sent - old(sent)
      {
        var end := if i + maxBatch <= |batch| then i + maxBatch else |batch|;
        var chunk := batch[i..end];
        ghost var was, held := posts, agent.ch;
        ghost var tries := SendChunk(chunk, nowMs);
        OneMoreChunk(batch, i, end, chunks, rounds, tries, nowMs, maxBatch, maxRetries);
        OneMoreRound(validator, agent.capacity, old(posts), old(agent.ch), rounds, was, held, tries);
        chunks, rounds := chunks + [chunk], rounds + [tries];
        i := end;
      }
      assert batch[..i] == batch;
      if reachable && maxRetries >= 0 {
        ChunksAsOne(validator, agent.capacity, old(agent.ch), rounds, chunks, nowMs, maxRetries);
      }
    }
  }
}
