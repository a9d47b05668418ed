/** Which images of a request are sent: the newest-first byte budget of `hydrate_for`, and the
    oldest-first eviction of `fit_request_to_limit`. */
module ImageBudget {
  import opened Wrappers
  import opened Messages
  import opened Sequences

  datatype Result<+T> = Ok(value: T) | Bad(note: string)

  const MAX_IMAGES_PER_MESSAGE: nat := 4

  /** The files, and the wording of the notes: the size a readable image is charged at, its data URL,
      and the note for a file that has neither. */
  datatype Host = Host(
    inspect: string -> Result<nat>,
    dataUrl: string -> Result<string>,
    notAccepted: string -> string,
    overCount: string -> string,
    overTotal: (string, nat) -> string,
    overRequest: (string, nat) -> string)

  /** `describe_image`: never a data URL. */
  function Describe(image: ImageRef): string
  {
    match image
    case Path(path) => path
    case Url(url, _) => if "data:" <= url then "(inline image)" else url
  }

  /** A note names a file by its path and a link by its address, and never spells out inline data. */
  lemma Described(image: ImageRef)
    ensures image.Path? ==> Describe(image) == image.path
    ensures image.Url? && !("data:" <= image.url) ==> Describe(image) == image.url
    ensures image.Url? ==> !("data:" <= Describe(image))
  {
    assert "(inline image)"[0] != "data:"[0];
  }

  datatype Decision = Send(image: ImageRef) | Drop(note: string)

  datatype Settings = Settings(host: Host, detail: Option<Detail>, accepted: bool, limit: nat)

  // ----- One image

  /** What becomes of the image at `position`, with `remaining` bytes left, and what is left after it. */
  function Decide(s: Settings, image: ImageRef, position: nat, remaining: nat): (r: (Decision, nat))
    ensures r.1 <= remaining
  {
    if !s.accepted then (Drop(s.host.notAccepted(Describe(image))), remaining)
    else if position >= MAX_IMAGES_PER_MESSAGE then (Drop(s.host.overCount(Describe(image))), remaining)
    else
      match image
      case Url(_, _) => (Send(image), remaining)
      case Path(path) =>
        match s.host.inspect(path)
        case Bad(note) => (Drop(note), remaining)
        case Ok(bytes) =>
          if bytes > remaining then (Drop(s.host.overTotal(Describe(image), s.limit)), remaining)
          else
            match s.host.dataUrl(path)
            case Ok(url) => (Send(Url(url, s.detail)), remaining - bytes)
            case Bad(note) => (Drop(note), remaining - bytes)
  }

  /** The bytes a sent local image was inspected at. */
  function Charge(s: Settings, image: ImageRef, d: Decision): nat
  {
    if d.Send? && image.Path? && s.host.inspect(image.path).Ok? then s.host.inspect(image.path).value else 0
  }

  // ----- Newest first

  /** The first `n` images of a message, decided from the last one down. */
  function DecideImages(s: Settings, images: seq<ImageRef>, n: nat, remaining: nat): (r: (seq<Decision>, nat))
    requires n <= |images|
    ensures |r.0| == n && r.1 <= remaining
  {
    if n == 0 then ([], remaining)
    else
      var (d, left) := Decide(s, images[n - 1], n - 1, remaining);
      var (rest, end) := DecideImages(s, images, n - 1, left);
      (rest + [d], end)
  }

  /** All messages, decided from the newest down. */
  function DecideAll(s: Settings, messages: seq<Message>, remaining: nat): (r: (seq<seq<Decision>>, nat))
    ensures |r.0| == |messages| && r.1 <= remaining
    ensures forall i :: 0 <= i < |messages| ==> |r.0[i]| == |messages[i].images|
  {
    if messages == [] then ([], remaining)
    else
      var last := messages[|messages| - 1];
      var (slots, left) := DecideImages(s, last.images, |last.images|, remaining);
      var (rest, end) := DecideAll(s, messages[..|messages| - 1], left);
      (rest + [slots], end)
  }

  function Sent(slots: seq<Decision>): seq<ImageRef>
  {
    if slots == [] then []
    else (if slots[0].Send? then [slots[0].image] else []) + Sent(slots[1..])
  }

  function Notes(slots: seq<Decision>): seq<string>
  {
    if slots == [] then []
    else (if slots[0].Drop? then [slots[0].note] else []) + Notes(slots[1..])
  }

  function JoinNotes(notes: seq<string>): string
  {
    if notes == [] then ""
    else if |notes| == 1 then notes[0]
    else notes[0] + " " + JoinNotes(notes[1..])
  }

  function AppendText(content: string, addition: string): string
  {
    (if content == "" then "" else content + " ") + addition
  }

  function Rewrite(m: Message, slots: seq<Decision>): Message
  {
    m.(content := if Notes(slots) == [] then m.content else AppendText(m.content, JoinNotes(Notes(slots))),
       images := Sent(slots))
  }

  function Hydrate(s: Settings, messages: seq<Message>): seq<Message>
  {
    var slots := DecideAll(s, messages, s.limit).0;
    seq(|messages|, i requires 0 <= i < |messages| => Rewrite(messages[i], slots[i]))
  }

  // ----- The budget

  function Charged(s: Settings, images: seq<ImageRef>, slots: seq<Decision>): nat
    requires |slots| == |images|
  {
    if images == [] then 0 else Charge(s, images[0], slots[0]) + Charged(s, images[1..], slots[1..])
  }

  function ChargedAll(s: Settings, messages: seq<Message>, slots: seq<seq<Decision>>): nat
    requires |slots| == |messages|
    requires forall i :: 0 <= i < |messages| ==> |slots[i]| == |messages[i].images|
  {
    if messages == [] then 0
    else Charged(s, messages[0].images, slots[0]) + ChargedAll(s, messages[1..], slots[1..])
  }

  lemma {:induction false} ChargedSnoc(s: Settings, images: seq<ImageRef>, slots: seq<Decision>, image: ImageRef,
                                       d: Decision)
    requires |slots| == |images|
    ensures Charged(s, images + [image], slots + [d]) == Charged(s, images, slots) + Charge(s, image, d)
  {
    if images != [] {
      assert (images + [image])[1..] == images[1..] + [image] && (slots + [d])[1..] == slots[1..] + [d];
      ChargedSnoc(s, images[1..], slots[1..], image, d);
    } else {
      assert images + [image] == [image] && slots + [d] == [d];
    }
  }

  lemma {:induction false} ChargedAllSnoc(s: Settings, messages: seq<Message>, slots: seq<seq<Decision>>, m: Message,
                                          last: seq<Decision>)
    requires |slots| == |messages| && |last| == |m.images|
    requires forall i :: 0 <= i < |messages| ==> |slots[i]| == |messages[i].images|
    ensures ChargedAll(s, messages + [m], slots + [last]) == ChargedAll(s, messages, slots) + Charged(s, m.images, last)
  {
    if messages != [] {
      assert (messages + [m])[1..] == messages[1..] + [m] && (slots + [last])[1..] == slots[1..] + [last];
      ChargedAllSnoc(s, messages[1..], slots[1..], m, last);
    } else {
      assert messages + [m] == [m] && slots + [last] == [last];
    }
  }

  lemma {:induction false} ImagesStayInBudget(s: Settings, images: seq<ImageRef>, n: nat, remaining: nat)
    requires n <= |images|
    ensures var (slots, end) := DecideImages(s, images, n, remaining);
            Charged(s, images[..n], slots) + end <= remaining
  {
    if n > 0 {
      var (d, left) := Decide(s, images[n - 1], n - 1, remaining);
      var (rest, end) := DecideImages(s, images, n - 1, left);
      ImagesStayInBudget(s, images, n - 1, left);
      ChargedSnoc(s, images[..n - 1], rest, images[n - 1], d);
      assert images[..n] == images[..n - 1] + [images[n - 1]];
    }
  }

  lemma {:induction false} MessagesStayInBudget(s: Settings, messages: seq<Message>, remaining: nat)
    ensures var (slots, end) := DecideAll(s, messages, remaining);
            ChargedAll(s, messages, slots) + end <= remaining
    decreases |messages|
  {
    if messages != [] {
      var older, last := messages[..|messages| - 1], messages[|messages| - 1];
      var (slots, left) := DecideImages(s, last.images, |last.images|, remaining);
      var (rest, end) := DecideAll(s, older, left);
      ImagesStayInBudget(s, last.images, |last.images|, remaining);
      assert last.images[..|last.images|] == last.images;
      MessagesStayInBudget(s, older, left);
      ChargedAllSnoc(s, older, rest, last, slots);
      assert messages == older + [last];
    }
  }

  /** The inspected bytes of the local images sent never exceed the limit. */
  lemma {:induction false} SentBytesWithinLimit(s: Settings, messages: seq<Message>)
    ensures ChargedAll(s, messages, DecideAll(s, messages, s.limit).0) <= s.limit
  {
    MessagesStayInBudget(s, messages, s.limit);
  }

  // ----- Every image is sent in its place or leaves its note

  lemma {:induction false} EachImageAccounted(slots: seq<Decision>)
    ensures |Sent(slots)| + |Notes(slots)| == |slots|
  {
    if slots != [] {
      EachImageAccounted(slots[1..]);
    }
  }

  predicate Readable(s: Settings, image: ImageRef)
  {
    image.Path? ==> s.host.inspect(image.path).Ok? && s.host.dataUrl(image.path).Ok?
  }

  /** What the image at `position` is charged with `left` bytes left: its inspected size, when it gets as far
      as being read and fits. */
  function Cost(s: Settings, image: ImageRef, position: nat, left: nat): nat
  {
    if s.accepted && position < MAX_IMAGES_PER_MESSAGE && image.Path? && s.host.inspect(image.path).Ok?
       && s.host.inspect(image.path).value <= left
    then s.host.inspect(image.path).value else 0
  }

  predicate FitsIn(s: Settings, image: ImageRef, left: nat)
  {
    image.Path? && s.host.inspect(image.path).Ok? ==> s.host.inspect(image.path).value <= left
  }

  /** The one decision there can be: the image is sent, resolved, exactly when the model takes images, it is
      among the first four of its message, it can be read and it fits; otherwise it leaves the note that says
      which of these failed first. */
  ghost predicate Decided(s: Settings, image: ImageRef, position: nat, left: nat, d: Decision)
  {
    && (d.Send? <==> s.accepted && position < MAX_IMAGES_PER_MESSAGE && Readable(s, image) && FitsIn(s, image, left))
    && (d.Send? ==> Resolves(s, image, d.image))
    && (!s.accepted ==> d == Drop(s.host.notAccepted(Describe(image))))
    && (s.accepted && position >= MAX_IMAGES_PER_MESSAGE ==> d == Drop(s.host.overCount(Describe(image))))
    && (s.accepted && position < MAX_IMAGES_PER_MESSAGE && !FitsIn(s, image, left) ==>
          d == Drop(s.host.overTotal(Describe(image), s.limit)))
    && (s.accepted && position < MAX_IMAGES_PER_MESSAGE && FitsIn(s, image, left) && !Readable(s, image) ==>
          d == Drop(Complaint(s, image)))
  }

  /** What is wrong with a file that cannot be read. */
  function Complaint(s: Settings, image: ImageRef): string
    requires !Readable(s, image)
  {
    if s.host.inspect(image.path).Bad? then s.host.inspect(image.path).note else s.host.dataUrl(image.path).note
  }

  lemma DecideIsDecided(s: Settings, image: ImageRef, position: nat, left: nat)
    ensures Decided(s, image, position, left, Decide(s, image, position, left).0)
    ensures Decide(s, image, position, left).1 == left - Cost(s, image, position, left)
    ensures Cost(s, image, position, left) <= left
  {
  }

  /** The bytes left along a message, decided from its last image down: `left[k]` once image `k` is decided. */
  ghost predicate Ledger(s: Settings, images: seq<ImageRef>, ds: seq<Decision>, left: seq<nat>)
  {
    && |ds| == |images| && |left| == |images| + 1
    && forall k :: 0 <= k < |images| ==>
         && Decided(s, images[k], k, left[k + 1], ds[k])
         && left[k] == left[k + 1] - Cost(s, images[k], k, left[k + 1])
  }

  lemma {:induction false} LedgerOf(s: Settings, images: seq<ImageRef>, n: nat, remaining: nat)
    returns (left: seq<nat>)
    requires n <= |images|
    ensures Ledger(s, images[..n], DecideImages(s, images, n, remaining).0, left)
    ensures left[n] == remaining && left[0] == DecideImages(s, images, n, remaining).1
  {
    left := [remaining];
    if n > 0 {
      var (d, after) := Decide(s, images[n - 1], n - 1, remaining);
      DecideIsDecided(s, images[n - 1], n - 1, remaining);
      var before := LedgerOf(s, images, n - 1, after);
      left := before + [remaining];
      LedgerSnoc(s, images[..n - 1], images[n - 1], DecideImages(s, images, n - 1, after).0, d, before, remaining);
      assert images[..n] == images[..n - 1] + [images[n - 1]];
    }
  }

  lemma LedgerSnoc(s: Settings, images: seq<ImageRef>, image: ImageRef, ds: seq<Decision>, d: Decision,
                   left: seq<nat>, remaining: nat)
    requires Ledger(s, images, ds, left) && Decided(s, image, |images|, remaining, d)
    requires left[|images|] == remaining - Cost(s, image, |images|, remaining)
    ensures Ledger(s, images + [image], ds + [d], left + [remaining])
  {
  }

  lemma SlotsDecided(s: Settings, images: seq<ImageRef>, remaining: nat) returns (left: seq<nat>)
    ensures Ledger(s, images, DecideImages(s, images, |images|, remaining).0, left)
    ensures left[|images|] == remaining && left[0] == DecideImages(s, images, |images|, remaining).1
  {
    left := LedgerOf(s, images, |images|, remaining);
    assert images[..|images|] == images;
  }

  lemma {:induction false} SentFromFirstFour(slots: seq<Decision>, from: nat)
    requires forall i :: 0 <= i < |slots| && from + i >= MAX_IMAGES_PER_MESSAGE ==> slots[i].Drop?
    ensures |Sent(slots)| <= if from <= MAX_IMAGES_PER_MESSAGE then MAX_IMAGES_PER_MESSAGE - from else 0
    decreases |slots|
  {
    if slots != [] {
      SentFromFirstFour(slots[1..], from + 1);
    }
  }

  /** `out` is what is left of `images` after dropping some: each one resolved, in the same order. */
  ghost predicate InOrder(s: Settings, images: seq<ImageRef>, out: seq<ImageRef>)
    decreases |images|
  {
    out == [] ||
    (images != [] &&
     ((Resolves(s, images[0], out[0]) && InOrder(s, images[1..], out[1..])) || InOrder(s, images[1..], out)))
  }

  ghost predicate Resolves(s: Settings, image: ImageRef, out: ImageRef)
  {
    match image
    case Url(_, _) => out == image
    case Path(path) => s.host.dataUrl(path).Ok? && out == Url(s.host.dataUrl(path).value, s.detail)
  }

  lemma {:induction false} SentInOrder(s: Settings, images: seq<ImageRef>, slots: seq<Decision>)
    requires |slots| == |images|
    requires forall i :: 0 <= i < |slots| && slots[i].Send? ==> Resolves(s, images[i], slots[i].image)
    ensures InOrder(s, images, Sent(slots))
  {
    if slots != [] {
      SentInOrder(s, images[1..], slots[1..]);
      if slots[0].Send? {
        assert Sent(slots)[0] == slots[0].image && Sent(slots)[1..] == Sent(slots[1..]);
      } else {
        assert Sent(slots) == Sent(slots[1..]);
      }
    }
  }

  // ----- Newer messages come first

  /** Older messages put in front change nothing about what the newer ones send. */
  lemma {:induction false} NewerComeFirst(s: Settings, older: seq<Message>, newer: seq<Message>, remaining: nat)
    ensures var (slots, left) := DecideAll(s, newer, remaining);
            DecideAll(s, older + newer, remaining).0 == DecideAll(s, older, left).0 + slots
    decreases |newer|
  {
    if newer == [] {
      assert older + newer == older;
    } else {
      var last, front := newer[|newer| - 1], newer[..|newer| - 1];
      assert (older + newer)[|older + newer| - 1] == last;
      assert (older + newer)[..|older + newer| - 1] == older + front;
      var (slots, left) := DecideImages(s, last.images, |last.images|, remaining);
      NewerComeFirst(s, older, front, left);
    }
  }

  lemma OlderMessagesDoNotMatter(s: Settings, older: seq<Message>, newer: seq<Message>)
    ensures Hydrate(s, older + newer)[|older|..] == Hydrate(s, newer)
  {
    NewerComeFirst(s, older, newer, s.limit);
    var all, own := Hydrate(s, older + newer), Hydrate(s, newer);
    forall i | 0 <= i < |newer|
      ensures all[|older| + i] == own[i]
    {
      assert (older + newer)[|older| + i] == newer[i];
    }
  }

  /** The notes of some decisions, in their order: as many as images dropped, the k-th after those before it. */
  lemma {:induction false} NotesInOrder(ds: seq<Decision>, k: nat)
    requires k < |ds|
    ensures |Notes(ds[..k])| <= |Notes(ds)|
    ensures ds[k].Drop? ==> |Notes(ds[..k])| < |Notes(ds)| && Notes(ds)[|Notes(ds[..k])|] == ds[k].note
  {
    if k > 0 {
      NotesInOrder(ds[1..], k - 1);
      assert ds[..k][1..] == ds[1..][..k - 1];
    }
  }

  /** `text` is these notes, a space between each two. */
  ghost predicate Spaced(notes: seq<string>, text: string)
    decreases |notes|
  {
    if |notes| == 0 then text == ""
    else if |notes| == 1 then text == notes[0]
    else notes[0] + " " <= text && Spaced(notes[1..], text[|notes[0]| + 1..])
  }

  lemma {:induction false} JoinIsSpaced(notes: seq<string>)
    ensures Spaced(notes, JoinNotes(notes))
  {
    if |notes| > 1 {
      JoinIsSpaced(notes[1..]);
      assert JoinNotes(notes)[|notes[0]| + 1..] == JoinNotes(notes[1..]);
    }
  }

  /** The whole of `hydrate_for`: one ledger that starts at the limit behind the newest image and is carried
      from message to message decides every image; a message sends the images decided so, at most four, in
      their order, and its text is followed by the notes of the others, in their order. */
  lemma HydratedMessages(s: Settings, messages: seq<Message>)
    returns (ds: seq<seq<Decision>>, left: seq<seq<nat>>)
    ensures |ds| == |left| == |messages| == |Hydrate(s, messages)|
    ensures Carried(messages, left, s.limit)
    ensures forall i :: 0 <= i < |messages| ==> Ledger(s, messages[i].images, ds[i], left[i])
    ensures forall i :: 0 <= i < |messages| ==> HydratedAs(s, messages[i], ds[i], Hydrate(s, messages)[i])
  {
    ds := DecideAll(s, messages, s.limit).0;
    left := MessageLedgers(s, messages, s.limit);
    forall i | 0 <= i < |messages|
      ensures HydratedAs(s, messages[i], ds[i], Hydrate(s, messages)[i])
    {
      RewriteIsHydrated(s, messages[i], ds[i], left[i]);
    }
  }

  ghost predicate HydratedAs(s: Settings, m: Message, ds: seq<Decision>, out: Message)
  {
    && out == m.(content := out.content, images := out.images)
    && out.images == Sent(ds) && |out.images| <= MAX_IMAGES_PER_MESSAGE && InOrder(s, m.images, out.images)
    && |out.images| + |Notes(ds)| == |m.images|
    && if Notes(ds) == [] then out.content == m.content
       else
         var lead := if m.content == "" then "" else m.content + " ";
         lead <= out.content && Spaced(Notes(ds), out.content[|lead|..])
  }

  lemma RewriteIsHydrated(s: Settings, m: Message, ds: seq<Decision>, left: seq<nat>)
    requires Ledger(s, m.images, ds, left)
    ensures HydratedAs(s, m, ds, Rewrite(m, ds))
  {
    EachImageAccounted(ds);
    forall k | 0 <= k < |ds|
      ensures ds[k].Send? ==> Resolves(s, m.images[k], ds[k].image)
      ensures 0 + k >= MAX_IMAGES_PER_MESSAGE ==> ds[k].Drop?
    {
      assert Decided(s, m.images[k], k, left[k + 1], ds[k]);
    }
    SentInOrder(s, m.images, ds);
    SentFromFirstFour(ds, 0);
    JoinIsSpaced(Notes(ds));
    var lead := if m.content == "" then "" else m.content + " ";
    assert AppendText(m.content, JoinNotes(Notes(ds))) == lead + JoinNotes(Notes(ds));
  }

  /** One account over all messages: the newest starts with the whole budget, and each older one with what the
      next newer one has left. */
  ghost predicate Carried(messages: seq<Message>, left: seq<seq<nat>>, budget: nat)
  {
    && |left| == |messages|
    && (forall i :: 0 <= i < |messages| ==> |left[i]| == |messages[i].images| + 1)
    && forall i :: 0 <= i < |messages| ==>
         left[i][|left[i]| - 1] == if i == |messages| - 1 then budget else left[i + 1][0]
  }

  lemma CarriedSnoc(older: seq<Message>, last: Message, before: seq<seq<nat>>, own: seq<nat>, budget: nat)
    requires |own| == |last.images| + 1 && own[|last.images|] == budget && Carried(older, before, own[0])
    ensures Carried(older + [last], before + [own], budget)
  {
    var left, n := before + [own], |older|;
    forall i | 0 <= i < n
      ensures left[i][|left[i]| - 1] == left[i + 1][0]
    {
      assert left[i] == before[i] && left[i + 1] == if i < n - 1 then before[i + 1] else own;
      assert before[i][|before[i]| - 1] == if i == n - 1 then own[0] else before[i + 1][0];
    }
  }

  lemma {:induction false} MessageLedgers(s: Settings, messages: seq<Message>, budget: nat)
    returns (left: seq<seq<nat>>)
    ensures Carried(messages, left, budget)
    ensures forall i :: 0 <= i < |messages| ==>
              Ledger(s, messages[i].images, DecideAll(s, messages, budget).0[i], left[i])
    decreases |messages|
  {
    left := [];
    if messages != [] {
      var older, last := messages[..|messages| - 1], messages[|messages| - 1];
      var own := SlotsDecided(s, last.images, budget);
      var before := MessageLedgers(s, older, own[0]);
      CarriedSnoc(older, last, before, own, budget);
      left := before + [own];
      assert messages == older + [last];
      assert DecideAll(s, messages, budget).0 ==
             DecideAll(s, older, own[0]).0 + [DecideImages(s, last.images, |last.images|, budget).0];
      forall i | 0 <= i < |messages|
        ensures Ledger(s, messages[i].images, DecideAll(s, messages, budget).0[i], left[i])
      {
        if i < |older| {
          assert Ledger(s, older[i].images, DecideAll(s, older, own[0]).0[i], before[i]);
        }
      }
    }
  }

  /** A model that takes no images gets none, and the text names every one of them. */
  lemma NotAcceptedSendsNothing(s: Settings, messages: seq<Message>, i: nat)
    requires !s.accepted && i < |messages|
    ensures var m, out := messages[i], Hydrate(s, messages)[i];
            && out.images == [] && (m.images == [] ==> out == m)
            && (m.images != [] ==>
                  var lead := if m.content == "" then "" else m.content + " ";
                  lead <= out.content && Spaced(NotAcceptedNotes(s, m.images), out.content[|lead|..]))
  {
    var ds, left := HydratedMessages(s, messages);
    forall k | 0 <= k < |ds[i]|
      ensures ds[i][k] == Drop(s.host.notAccepted(Describe(messages[i].images[k])))
    {
      assert Decided(s, messages[i].images[k], k, left[i][k + 1], ds[i][k]);
    }
    AllDropped(ds[i], NotAcceptedNotes(s, messages[i].images));
  }

  function NotAcceptedNotes(s: Settings, images: seq<ImageRef>): seq<string>
  {
    seq(|images|, k requires 0 <= k < |images| => s.host.notAccepted(Describe(images[k])))
  }

  lemma {:induction false} AllDropped(ds: seq<Decision>, notes: seq<string>)
    requires |ds| == |notes| && forall k :: 0 <= k < |ds| ==> ds[k] == Drop(notes[k])
    ensures Sent(ds) == [] && Notes(ds) == notes
  {
    if ds != [] {
      AllDropped(ds[1..], notes[1..]);
    }
  }

  // ----- Nothing is dropped without a reason

  function Size(s: Settings, image: ImageRef): nat
  {
    if image.Path? && s.host.inspect(image.path).Ok? then s.host.inspect(image.path).value else 0
  }

  function TotalSize(s: Settings, images: seq<ImageRef>): nat
  {
    if images == [] then 0 else TotalSize(s, images[..|images| - 1]) + Size(s, images[|images| - 1])
  }

  /** When a message's readable images fit in what is left, every one is sent. */
  lemma {:induction false} FittingImagesAreSent(s: Settings, images: seq<ImageRef>, n: nat, remaining: nat)
    requires s.accepted && n <= |images| && n <= MAX_IMAGES_PER_MESSAGE
    requires forall i :: 0 <= i < n ==> Readable(s, images[i])
    requires TotalSize(s, images[..n]) <= remaining
    ensures var (slots, end) := DecideImages(s, images, n, remaining);
            && (forall i :: 0 <= i < n ==> slots[i].Send?)
            && end == remaining - TotalSize(s, images[..n])
  {
    if n > 0 {
      assert images[..n][..n - 1] == images[..n - 1];
      var (d, left) := Decide(s, images[n - 1], n - 1, remaining);
      FittingImagesAreSent(s, images, n - 1, left);
    }
  }

  /** The newest message's images are sent whenever they fit alone, however much history there is. */
  lemma {:induction false} NewestMessageIsServedFirst(s: Settings, older: seq<Message>, newest: Message)
    requires s.accepted && |newest.images| <= MAX_IMAGES_PER_MESSAGE
    requires forall i :: 0 <= i < |newest.images| ==> Readable(s, newest.images[i])
    requires TotalSize(s, newest.images) <= s.limit
    ensures var out := Hydrate(s, older + [newest])[|older|];
            && |out.images| == |newest.images| && out.content == newest.content
            && forall k :: 0 <= k < |newest.images| ==> Resolves(s, newest.images[k], out.images[k])
  {
    OlderMessagesDoNotMatter(s, older, [newest]);
    var n := |newest.images|;
    assert newest.images[..n] == newest.images;
    FittingImagesAreSent(s, newest.images, n, s.limit);
    var slots := DecideAll(s, [newest], s.limit).0[0];
    assert slots == DecideImages(s, newest.images, n, s.limit).0;
    AllSent(slots);
    var left := SlotsDecided(s, newest.images, s.limit);
    forall k | 0 <= k < n
      ensures Resolves(s, newest.images[k], slots[k].image)
    {
      assert Decided(s, newest.images[k], k, left[k + 1], slots[k]);
    }
    assert Hydrate(s, [newest])[0] == Hydrate(s, older + [newest])[|older|..][0];
  }

  lemma {:induction false} AllSent(slots: seq<Decision>)
    requires forall i :: 0 <= i < |slots| ==> slots[i].Send?
    ensures |Sent(slots)| == |slots| && Notes(slots) == []
    ensures forall k :: 0 <= k < |slots| ==> Sent(slots)[k] == slots[k].image
  {
    if slots != [] {
      AllSent(slots[1..]);
    }
  }

  // ----- The loops

  method DecideMessage(s: Settings, images: seq<ImageRef>, budget: nat)
    returns (decisions: seq<Decision>, remaining: nat)
    ensures (decisions, remaining) == DecideImages(s, images, |images|, budget)
  {
    decisions, remaining := [], budget;
    var position := |images|;
    ghost var all := DecideImages(s, images, |images|, budget);
    assert all.0 + [] == all.0;
    while position > 0
      invariant 0 <= position <= |images|
      invariant var (rest, end) := DecideImages(s, images, position, remaining);
                rest + decisions == all.0 && end == all.1
    {
      position := position - 1;
      var (d, left) := Decide(s, images[position], position, remaining);
      var (rest, end) := DecideImages(s, images, position, left);
      assert rest + [d] + decisions == rest + ([d] + decisions);
      decisions, remaining := [d] + decisions, left;
    }
    assert [] + decisions == decisions;
  }

  lemma {:induction false} OneMoreDecided(s: Settings, messages: seq<Message>, index: nat, budget: nat,
                                          outcomes: seq<seq<Decision>>)
    requires index < |messages|
    ensures var (slots, left) := DecideImages(s, messages[index].images, |messages[index].images|, budget);
            DecideAll(s, messages[..index + 1], budget).0 + outcomes ==
            DecideAll(s, messages[..index], left).0 + ([slots] + outcomes)
  {
    assert messages[..index + 1][..index] == messages[..index];
    var (slots, left) := DecideImages(s, messages[index].images, |messages[index].images|, budget);
    Assoc(DecideAll(s, messages[..index], left).0, [slots], outcomes);
  }

  method DecideMessages(s: Settings, messages: seq<Message>) returns (outcomes: seq<seq<Decision>>)
    ensures outcomes == DecideAll(s, messages, s.limit).0
  {
    outcomes := [];
    var remaining, index := s.limit, |messages|;
    ghost var all := DecideAll(s, messages, s.limit).0;
    assert messages[..index] == messages && all + [] == all;
    while index > 0
      invariant 0 <= index <= |messages|
      invariant DecideAll(s, messages[..index], remaining).0 + outcomes == all
    {
      index := index - 1;
      var slots, left := DecideMessage(s, messages[index].images, remaining);
      OneMoreDecided(s, messages, index, remaining, outcomes);
      outcomes, remaining := [slots] + outcomes, left;
    }
    assert [] + outcomes == outcomes;
  }

  method HydrateFor(s: Settings, messages: seq<Message>) returns (out: seq<Message>)
    ensures out == Hydrate(s, messages)
  {
    var outcomes := DecideMessages(s, messages);
    out := [];
    for i := 0 to |messages|
      invariant out == Hydrate(s, messages)[..i]
    {
      out := out + [Rewrite(messages[i], outcomes[i])];
    }
  }

  // ----- Eviction to the request limit

  /** A message without its first image, a note in its place. */
  function OneFewer(host: Host, limit: nat, m: Message): Message
    requires m.images != []
  {
    m.(content := AppendText(m.content, host.overRequest(Describe(m.images[0]), limit)), images := m.images[1..])
  }

  /** One pass of the loop: the oldest image goes and its message says so. */
  function EvictOldest(host: Host, limit: nat, messages: seq<Message>): seq<Message>
  {
    if messages == [] then []
    else if messages[0].images == [] then [messages[0]] + EvictOldest(host, limit, messages[1..])
    else
      var m := messages[0];
      [OneFewer(host, limit, m)] + messages[1..]
  }

  function ImageCount(messages: seq<Message>): nat
  {
    if messages == [] then 0 else |messages[0].images| + ImageCount(messages[1..])
  }

  /** The content of a message after dropping these images, a note each. */
  function Noted(host: Host, limit: nat, content: string, dropped: seq<ImageRef>): string
    decreases |dropped|
  {
    if dropped == [] then content
    else Noted(host, limit, AppendText(content, host.overRequest(Describe(dropped[0]), limit)), dropped[1..])
  }

  /** The request without its `k` oldest images. */
  function WithoutOldest(host: Host, limit: nat, messages: seq<Message>, k: nat): seq<Message>
  {
    if messages == [] then []
    else
      var m := messages[0];
      var n := if k < |m.images| then k else |m.images|;
      [m.(content := Noted(host, limit, m.content, m.images[..n]), images := m.images[n..])]
      + WithoutOldest(host, limit, messages[1..], k - n)
  }

  lemma {:induction false} NotedSnoc(host: Host, limit: nat, content: string, dropped: seq<ImageRef>, image: ImageRef)
    ensures Noted(host, limit, content, dropped + [image]) ==
            AppendText(Noted(host, limit, content, dropped), host.overRequest(Describe(image), limit))
    decreases |dropped|
  {
    if dropped == [] {
      assert dropped + [image] == [image] && [image][1..] == [];
    } else {
      assert (dropped + [image])[1..] == dropped[1..] + [image];
      NotedSnoc(host, limit, AppendText(content, host.overRequest(Describe(dropped[0]), limit)), dropped[1..], image);
    }
  }

  lemma {:induction false} WithoutNone(host: Host, limit: nat, messages: seq<Message>)
    ensures WithoutOldest(host, limit, messages, 0) == messages
  {
    if messages != [] {
      var m := messages[0];
      assert m.images[..0] == [] && m.images[0..] == m.images;
      WithoutNone(host, limit, messages[1..]);
    }
  }

  /** Evicting once more is dropping one more of the oldest. */
  lemma {:induction false} EvictOneMore(host: Host, limit: nat, messages: seq<Message>, k: nat)
    requires k < ImageCount(messages)
    ensures EvictOldest(host, limit, WithoutOldest(host, limit, messages, k)) ==
            WithoutOldest(host, limit, messages, k + 1)
    decreases |messages|
  {
    if k < |messages[0].images| {
      EvictFromFirst(host, limit, messages, k);
    } else {
      var n := k - |messages[0].images|;
      EvictOneMore(host, limit, messages[1..], n);
      FirstEmptied(host, limit, messages, k);
      FirstEmptied(host, limit, messages, k + 1);
      EvictSkips(host, limit, Emptied(host, limit, messages[0]), WithoutOldest(host, limit, messages[1..], n));
    }
  }

  lemma NextImage(images: seq<ImageRef>, k: nat)
    requires k < |images|
    ensures images[..k + 1] == images[..k] + [images[k]] && images[k..][1..] == images[k + 1..]
    ensures images[k..][0] == images[k]
  {
  }

  lemma {:induction false} EvictFromFirst(host: Host, limit: nat, messages: seq<Message>, k: nat)
    requires messages != [] && k < |messages[0].images|
    ensures EvictOldest(host, limit, WithoutOldest(host, limit, messages, k)) ==
            WithoutOldest(host, limit, messages, k + 1)
  {
    var m, now := messages[0], WithoutOldest(host, limit, messages, k);
    NotedSnoc(host, limit, m.content, m.images[..k], m.images[k]);
    NextImage(m.images, k);
    assert now[1..] == WithoutOldest(host, limit, messages[1..], 0);
  }

  /** A message that lost all its images. */
  function Emptied(host: Host, limit: nat, m: Message): Message
  {
    m.(content := Noted(host, limit, m.content, m.images), images := [])
  }

  lemma {:induction false} FirstEmptied(host: Host, limit: nat, messages: seq<Message>, k: nat)
    requires messages != [] && |messages[0].images| <= k
    ensures WithoutOldest(host, limit, messages, k) ==
            [Emptied(host, limit, messages[0])] + WithoutOldest(host, limit, messages[1..], k - |messages[0].images|)
  {
    var images := messages[0].images;
    assert images[|images|..] == [] && images[..|images|] == images;
  }

  lemma {:induction false} EvictSkips(host: Host, limit: nat, m: Message, rest: seq<Message>)
    requires m.images == []
    ensures EvictOldest(host, limit, [m] + rest) == [m] + EvictOldest(host, limit, rest)
  {
    assert ([m] + rest)[1..] == rest;
  }

  lemma {:induction false} CountAfter(host: Host, limit: nat, messages: seq<Message>, k: nat)
    requires k <= ImageCount(messages)
    ensures ImageCount(WithoutOldest(host, limit, messages, k)) == ImageCount(messages) - k
    decreases |messages|
  {
    if messages != [] {
      var n := if k < |messages[0].images| then k else |messages[0].images|;
      CountAfter(host, limit, messages[1..], k - n);
      assert WithoutOldest(host, limit, messages, k)[1..] == WithoutOldest(host, limit, messages[1..], k - n);
    }
  }

  /** Whether the loop stops at this request: it fits, or its size cannot be told. */
  predicate Fits(size: seq<Message> -> Option<nat>, limit: nat, messages: seq<Message>)
  {
    size(messages).None? || size(messages).value <= limit
  }

  /** `out` is the request without its `k` oldest images, and nothing shorter would have done. */
  ghost predicate Evicted(host: Host, size: seq<Message> -> Option<nat>, limit: nat, messages: seq<Message>, k: nat,
                          out: seq<Message>)
  {
    && k <= ImageCount(messages)
    && out == WithoutOldest(host, limit, messages, k)
    && forall j :: 0 <= j < k ==> !Fits(size, limit, WithoutOldest(host, limit, messages, j))
  }

  lemma NothingEvicted(host: Host, size: seq<Message> -> Option<nat>, limit: nat, messages: seq<Message>)
    ensures Evicted(host, size, limit, messages, 0, messages)
  {
    WithoutNone(host, limit, messages);
  }

  lemma {:induction false} EvictedOnce(host: Host, size: seq<Message> -> Option<nat>, limit: nat,
                                       messages: seq<Message>, k: nat, out: seq<Message>)
    requires Evicted(host, size, limit, messages, k, out) && !Fits(size, limit, out)
    ensures ImageCount(out) == ImageCount(messages) - k
    ensures k < ImageCount(messages) ==> Evicted(host, size, limit, messages, k + 1, EvictOldest(host, limit, out))
  {
    CountAfter(host, limit, messages, k);
    if k < ImageCount(messages) {
      EvictOneMore(host, limit, messages, k);
    }
  }

  /** Removes the fewest oldest images that make the request fit, or all of them when none does. */
  method FitRequestToLimit(host: Host, size: seq<Message> -> Option<nat>, limit: nat, messages: seq<Message>)
    returns (out: seq<Message>, k: nat)
    ensures k <= ImageCount(messages) && out == WithoutOldest(host, limit, messages, k)
    ensures forall j :: 0 <= j < k ==>
              var larger := size(WithoutOldest(host, limit, messages, j));
              larger.Some? && larger.value > limit
    ensures || size(out).None? || size(out).value <= limit
            || forall i :: 0 <= i < |out| ==> out[i].images == []
  {
    out, k := Evict(host, size, limit, messages);
    if !Fits(size, limit, out) {
      NoImagesLeft(out);
    }
  }

  /** The loop itself. */
  method Evict(host: Host, size: seq<Message> -> Option<nat>, limit: nat, messages: seq<Message>)
    returns (out: seq<Message>, k: nat)
    ensures Evicted(host, size, limit, messages, k, out) && (Fits(size, limit, out) || ImageCount(out) == 0)
  {
    out, k := messages, 0;
    NothingEvicted(host, size, limit, messages);
    while !Fits(size, limit, out)
      invariant Evicted(host, size, limit, messages, k, out)
      decreases ImageCount(messages) - k
    {
      EvictedOnce(host, size, limit, messages, k, out);
      var removed;
      out, removed := RemoveOldestImage(host, limit, out);
      if !removed {
        return;
      }
      k := k + 1;
    }
  }

  lemma {:induction false} NoImagesLeft(messages: seq<Message>)
    requires ImageCount(messages) == 0
    ensures forall i :: 0 <= i < |messages| ==> messages[i].images == []
  {
    if messages != [] {
      NoImagesLeft(messages[1..]);
      assert forall i :: 1 <= i < |messages| ==> messages[i] == messages[1..][i - 1];
    }
  }

  method RemoveOldestImage(host: Host, limit: nat, messages: seq<Message>) returns (out: seq<Message>, removed: bool)
    ensures removed <==> ImageCount(messages) > 0
    ensures out == if removed then EvictOldest(host, limit, messages) else messages
  {
    var at := FirstWithImages(messages);
    if at == |messages| {
      return messages, false;
    }
    var m := messages[at];
    EvictedAt(host, limit, messages, at);
    return messages[at := OneFewer(host, limit, m)], true;
  }

  method FirstWithImages(messages: seq<Message>) returns (at: nat)
    ensures at <= |messages| && (forall i :: 0 <= i < at ==> messages[i].images == [])
    ensures at < |messages| ==> messages[at].images != []
    ensures at == |messages| <==> ImageCount(messages) == 0
  {
    at := 0;
    while at < |messages| && messages[at].images == []
      invariant at <= |messages| && (forall i :: 0 <= i < at ==> messages[i].images == [])
      invariant ImageCount(messages[at..]) == ImageCount(messages)
    {
      assert messages[at..][1..] == messages[at + 1..];
      at := at + 1;
    }
  }

  lemma {:induction false} EvictedAt(host: Host, limit: nat, messages: seq<Message>, at: nat)
    requires at < |messages| && messages[at].images != [] && forall i :: 0 <= i < at ==> messages[i].images == []
    ensures var m := messages[at];
            EvictOldest(host, limit, messages) ==
            messages[at := OneFewer(host, limit, m)]
  {
    if at > 0 {
      EvictedAt(host, limit, messages[1..], at - 1);
      assert messages == [messages[0]] + messages[1..];
    }
  }
}
