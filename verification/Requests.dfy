/** A request from the session to the wire: the derived messages, their images resolved and fitted to the
    limit, then printed. */
module Requests {
  import opened Wrappers
  import opened Messages
  import Session
  import ImageBudget
  import MessageWire

  // ----- What resolving and evicting images leaves alone

  /** The same messages but for their text and images. */
  ghost predicate SameSkeleton(a: seq<Message>, b: seq<Message>)
  {
    && |a| == |b|
    && forall i :: 0 <= i < |a| ==> b[i].(content := a[i].content, images := a[i].images) == a[i]
  }

  lemma SkeletonTail(a: seq<Message>, b: seq<Message>, k: nat)
    requires SameSkeleton(a, b) && k <= |a|
    ensures SameSkeleton(a[k..], b[k..])
  {
  }

  lemma SkeletonOpens(a: seq<Message>, b: seq<Message>)
    requires SameSkeleton(a, b) && a != [] && Session.Opens(a)
    ensures Session.Opens(b) && |b[0].calls| == |a[0].calls|
  {
    assert b[0].(content := a[0].content, images := a[0].images) == a[0];
    var calls, k := a[0].calls, |a[0].calls|;
    var before, after := a[1..k + 1], b[1..k + 1];
    assert b[0].calls == calls && Session.Answered(calls, before) && |after| == k;
    forall i | 0 <= i < k
      ensures after[i].role == ToolRole
      ensures after[i].callId == Some(calls[i].id)
    {
      assert b[i + 1].(content := a[i + 1].content, images := a[i + 1].images) == a[i + 1];
      assert before[i] == a[i + 1] && after[i] == b[i + 1];
      assert before[i].role == ToolRole && before[i].callId == Some(calls[i].id);
    }
    assert Session.Answered(calls, after);
  }

  /** Pairing is a matter of the skeleton. */
  lemma {:induction false} SkeletonPaired(a: seq<Message>, b: seq<Message>)
    requires SameSkeleton(a, b) && Session.Paired(a)
    ensures Session.Paired(b)
    decreases |a|
  {
    if a != [] {
      SkeletonOpens(a, b);
      var k := |a[0].calls| + 1;
      SkeletonTail(a, b, k);
      SkeletonPaired(a[k..], b[k..]);
    }
  }

  lemma SkeletonTransitive(a: seq<Message>, b: seq<Message>, c: seq<Message>)
    requires SameSkeleton(a, b) && SameSkeleton(b, c)
    ensures SameSkeleton(a, c)
  {
    forall i | 0 <= i < |a|
      ensures c[i].(content := a[i].content, images := a[i].images) == a[i]
    {
      assert b[i].(content := a[i].content, images := a[i].images) == a[i];
      assert c[i].(content := b[i].content, images := b[i].images) == b[i];
    }
  }

  lemma {:induction false} EvictionKeepsSkeleton(host: ImageBudget.Host, limit: nat, messages: seq<Message>, k: nat)
    ensures SameSkeleton(messages, ImageBudget.WithoutOldest(host, limit, messages, k))
    decreases |messages|
  {
    if messages != [] {
      var m := messages[0];
      var n := if k < |m.images| then k else |m.images|;
      EvictionKeepsSkeleton(host, limit, messages[1..], k - n);
      var rest := ImageBudget.WithoutOldest(host, limit, messages[1..], k - n);
      var out := ImageBudget.WithoutOldest(host, limit, messages, k);
      forall i | 0 <= i < |messages|
        ensures out[i].(content := messages[i].content, images := messages[i].images) == messages[i]
      {
        if i > 0 {
          assert out[i] == rest[i - 1] && messages[i] == messages[1..][i - 1];
        }
      }
    }
  }

  // ----- Images

  /** What the printer asks of a message: resolved images, and none but on a user message. */
  predicate Sendable(m: Message)
  {
    MessageWire.Resolved(m.images) && (m.images != [] ==> m.role == UserRole)
  }

  ghost predicate ImagesOnUsers(messages: seq<Message>)
  {
    forall i :: 0 <= i < |messages| ==> (messages[i].images != [] ==> messages[i].role == UserRole)
  }

  lemma {:induction false} SessionImagesOnUsers(entries: seq<Session.Cell>)
    ensures ImagesOnUsers(Session.Wire(entries))
  {
    if entries != [] {
      SessionImagesOnUsers(entries[1..]);
      BothOnUsers(Session.CellWire(entries[0]), Session.Wire(entries[1..]));
    }
  }

  lemma BothOnUsers(a: seq<Message>, b: seq<Message>)
    requires ImagesOnUsers(a) && ImagesOnUsers(b)
    ensures ImagesOnUsers(a + b)
  {
  }

  lemma {:induction false} SentAreUrls(ds: seq<ImageBudget.Decision>)
    requires forall k :: 0 <= k < |ds| && ds[k].Send? ==> ds[k].image.Url?
    ensures MessageWire.Resolved(ImageBudget.Sent(ds))
    ensures ds == [] ==> ImageBudget.Sent(ds) == []
  {
    if ds != [] {
      SentAreUrls(ds[1..]);
    }
  }

  lemma HydratedIsSendable(s: ImageBudget.Settings, messages: seq<Message>, i: nat)
    requires i < |messages| && (messages[i].images != [] ==> messages[i].role == UserRole)
    ensures Sendable(ImageBudget.Hydrate(s, messages)[i])
  {
    var all, left := ImageBudget.HydratedMessages(s, messages);
    var ds := all[i];
    forall k | 0 <= k < |ds| && ds[k].Send?
      ensures ds[k].image.Url?
    {
      assert ImageBudget.Decided(s, messages[i].images[k], k, left[i][k + 1], ds[k]);
    }
    SentAreUrls(ds);
  }

  lemma {:induction false} EvictedAreSendable(host: ImageBudget.Host, limit: nat, messages: seq<Message>, k: nat)
    requires forall i :: 0 <= i < |messages| ==> Sendable(messages[i])
    ensures var out := ImageBudget.WithoutOldest(host, limit, messages, k);
            |out| == |messages| && forall i :: 0 <= i < |out| ==> Sendable(out[i])
    decreases |messages|
  {
    if messages != [] {
      var m := messages[0];
      var n := if k < |m.images| then k else |m.images|;
      EvictedAreSendable(host, limit, messages[1..], k - n);
    }
  }

  // ----- The whole way

  /** The messages a session sends: resolved for the model, and without their `k` oldest images. */
  function Prepared(s: ImageBudget.Settings, limit: nat, entries: seq<Session.Cell>, k: nat): seq<Message>
  {
    ImageBudget.WithoutOldest(s.host, limit, ImageBudget.Hydrate(s, Session.Wire(entries)), k)
  }

  /** Whatever a session holds, its request always prints and reads back as itself, and it still pairs
      every call with its result, however many images were dropped on the way. */
  lemma RequestAlwaysSerializes(s: ImageBudget.Settings, limit: nat, entries: seq<Session.Cell>, k: nat)
    ensures var out := Prepared(s, limit, entries, k);
            && Session.Paired(out)
            && forall i :: 0 <= i < |out| ==>
                 && MessageWire.Serialize(MessageWire.NAMES, out[i]).Some?
                 && var wire := MessageWire.Serialize(MessageWire.NAMES, out[i]).value;
                    MessageWire.Deserialize(MessageWire.NAMES, wire) == Some(out[i])
  {
    var wire := Session.Wire(entries);
    var hydrated := ImageBudget.Hydrate(s, wire);
    var out := Prepared(s, limit, entries, k);
    Session.WireIsPaired(entries);
    EvictionKeepsSkeleton(s.host, limit, hydrated, k);
    SkeletonTransitive(wire, hydrated, out);
    SkeletonPaired(wire, out);
    SessionImagesOnUsers(entries);
    forall i | 0 <= i < |hydrated|
      ensures Sendable(hydrated[i])
    {
      HydratedIsSendable(s, wire, i);
    }
    EvictedAreSendable(s.host, limit, hydrated, k);
    forall i | 0 <= i < |out|
      ensures MessageWire.Serialize(MessageWire.NAMES, out[i]).Some?
      ensures MessageWire.Deserialize(MessageWire.NAMES, MessageWire.Serialize(MessageWire.NAMES, out[i]).value) ==
              Some(out[i])
    {
      SendableReadsBack(out[i]);
    }
  }

  lemma SendableReadsBack(m: Message)
    requires Sendable(m)
    ensures MessageWire.Serialize(MessageWire.NAMES, m).Some?
    ensures MessageWire.Deserialize(MessageWire.NAMES, MessageWire.Serialize(MessageWire.NAMES, m).value) == Some(m)
  {
    MessageWire.RoundTrip(m);
  }
}
