/** The frontend's network thread (frontend/net_client.py). What each recv call returns is up to the environment. */
module NetClient {
  import opened Schema
  import opened SeqLemmas
  import opened Ipc

  /** One pass of the connection loop: refused, or accepted and read until recv returns no bytes or fails. */
  datatype Attempt = Refused | Accepted(recvs: seq<bytes>)

  /** The reads up to the first empty one, which means the peer closed. */
  function UntilClosed(recvs: seq<bytes>): seq<bytes> {
    if recvs == [] || recvs[0] == [] then [] else [recvs[0]] + UntilClosed(recvs[1..])
  }

  /** What one attempt puts on the queue. Every connection starts with an empty line buffer. */
  function Queued(c: Codec<Message>, a: Attempt): seq<Message> {
    match a
    case Refused => [ConnStatus(false)]
    case Accepted(recvs) => [ConnStatus(true)] + FeedAll(c, [], UntilClosed(recvs)).messages + [ConnStatus(false)]
  }

  function QueuedAll(c: Codec<Message>, attempts: seq<Attempt>): seq<Message> {
    if attempts == [] then []
    else QueuedAll(c, attempts[..|attempts| - 1]) + Queued(c, attempts[|attempts| - 1])
  }

  /** A connection cut at any byte delivers a prefix of what was sent on it, whatever earlier
      connections left unfinished. */
  lemma CutConnectionDeliversPrefix(c: Codec<Message>, ms: seq<Message>, n: nat, recvs: seq<bytes>)
    requires Faithful(c) && n <= |Sent(c, ms)| && Flatten(UntilClosed(recvs)) == Sent(c, ms)[..n]
    ensures FeedAll(c, [], UntilClosed(recvs)).messages <= ms
    ensures n == |Sent(c, ms)| ==> FeedAll(c, [], UntilClosed(recvs)).messages == ms
  {
    MessagesOfBodies(ms);
    CutDeliversPrefix(c, Bodies(ms), UntilClosed(recvs), n);
    if n == |Sent(c, ms)| {
      assert Sent(c, ms)[..n] == Sent(c, ms);
      FramingRoundTrip(c, Bodies(ms), UntilClosed(recvs));
    }
  }

  lemma {:induction false} FeedOneMore(c: Codec<Message>, residual: bytes, chunks: seq<bytes>, chunk: bytes)
    ensures var fed := FeedAll(c, residual, chunks);
            var next := Parse(c, fed.residual + chunk);
            FeedAll(c, residual, chunks + [chunk]) == Fed(fed.messages + next.messages, next.residual)
    decreases |chunks|
  {
    if chunks == [] {
      assert [] + [chunk] == [chunk] && [chunk][1..] == [];
    } else {
      var first := Parse(c, residual + chunks[0]);
      FeedOneMore(c, first.residual, chunks[1..], chunk);
      assert (chunks + [chunk])[1..] == chunks[1..] + [chunk];
      var rest := FeedAll(c, first.residual, chunks[1..]);
      ConcatAssoc(first.messages, rest.messages, Parse(c, rest.residual + chunk).messages);
    }
  }

  lemma FeedNext(c: Codec<Message>, recvs: seq<bytes>, k: nat)
    requires k < |recvs|
    ensures var fed := FeedAll(c, [], recvs[..k]);
            var next := Parse(c, fed.residual + recvs[k]);
            FeedAll(c, [], recvs[..k + 1]) == Fed(fed.messages + next.messages, next.residual)
  {
    assert recvs[..k + 1] == recvs[..k] + [recvs[k]];
    FeedOneMore(c, [], recvs[..k], recvs[k]);
  }

  /** None of the first `k` reads found the connection closed. */
  ghost predicate OpenFor(recvs: seq<bytes>, k: nat) {
    forall i :: 0 <= i < k <= |recvs| ==> recvs[i] != []
  }

  lemma StillOpen(recvs: seq<bytes>, k: nat)
    requires OpenFor(recvs, k) && k < |recvs| && recvs[k] != []
    ensures OpenFor(recvs, k + 1)
  {
  }

  lemma {:induction false} ReadsUntilClosed(recvs: seq<bytes>, k: nat)
    requires k <= |recvs| && OpenFor(recvs, k)
    ensures k == |recvs| || recvs[k] == [] ==> UntilClosed(recvs) == recvs[..k]
  {
    if k > 0 {
      ReadsUntilClosed(recvs[1..], k - 1);
      assert recvs[..k] == [recvs[0]] + recvs[1..][..k - 1];
    }
  }

  /** What one attempt queues: nothing but the notice of failure if it is refused; else the notice of
      success, the messages of all bytes read before the connection closed, and the notice of its loss. */
  lemma QueuedIsFramedByNotices(c: Codec<Message>, a: Attempt)
    ensures a.Refused? ==> Queued(c, a) == [ConnStatus(false)]
    ensures a.Accepted? ==>
              Queued(c, a)
              == [ConnStatus(true)] + Parse(c, Flatten(UntilClosed(a.recvs))).messages + [ConnStatus(false)]
  {
    if a.Accepted? {
      ChunkingInvariance(c, [], UntilClosed(a.recvs));
      assert [] + Flatten(UntilClosed(a.recvs)) == Flatten(UntilClosed(a.recvs));
    }
  }

  class NetClient {
    const codec: Codec<Message>
    var queue: seq<Message>

    constructor (codec: Codec<Message>)
      ensures this.codec == codec && queue == []
    {
      this.codec, queue := codec, [];
    }

    method ReadLoop(recvs: seq<bytes>)
      modifies this
      ensures queue == old(queue) + FeedAll(codec, [], UntilClosed(recvs)).messages
    {
      var buffer := new NDJSONBuffer(codec);
      ghost var before := queue;
      var k := 0;
      assert queue == before + FeedAll(codec, [], recvs[..0]).messages;
      while k < |recvs| && recvs[k] != []
        invariant 0 <= k <= |recvs| && buffer.codec == codec
        invariant OpenFor(recvs, k)
        invariant queue == before + FeedAll(codec, [], recvs[..k]).messages
        invariant buffer.buf == FeedAll(codec, [], recvs[..k]).residual
      {
        var messages := buffer.Feed(recvs[k]);
        FeedNext(codec, recvs, k);
        StillOpen(recvs, k);
        ConcatAssoc(before, FeedAll(codec, [], recvs[..k]).messages, messages);
        queue := queue + messages;
        k := k + 1;
      }
      ReadsUntilClosed(recvs, k);
    }

    method Attempt(a: Attempt)
      modifies this
      ensures queue == old(queue) + Queued(codec, a)
    {
      if a.Accepted? {
        queue := queue + [ConnStatus(true)];
        ReadLoop(a.recvs);
      }
      queue := queue + [ConnStatus(false)];
    }

    method Run(attempts: seq<Attempt>)
      modifies this
      ensures queue == old(queue) + QueuedAll(codec, attempts)
    {
      ghost var before := queue;
      var k := 0;
      while k < |attempts|
        invariant 0 <= k <= |attempts|
        invariant queue == before + QueuedAll(codec, attempts[..k])
      {
        Attempt(attempts[k]);
        assert attempts[..k + 1][..k] == attempts[..k];
        ConcatAssoc(before, QueuedAll(codec, attempts[..k]), Queued(codec, attempts[k]));
        k := k + 1;
      }
      assert attempts[..k] == attempts;
    }
  }
}
