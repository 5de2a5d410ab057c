/** Codex image messages: image sources are unwrapped, and images in tool results
    move to a user message after the run of tool results they came in. */
module ImageMessages {
  import opened Wrappers

  /** The `image_url` of a part. Value stands for any JSON value that is no object. */
  datatype Source = Missing | Text(url: string) | Dict(url_: Option<Source>, extra: nat) | Value(tag: nat)

  /** Image is an object of type image_url or input_image; Plain is any other part. */
  datatype Part = Image(kind: string, source: Source, rest: nat) | Plain(tag: nat)

  /** NoList stands for content that is absent or no list. */
  datatype Content = Parts(parts: seq<Part>) | Notice | NoList(tag: nat)

  /** Opaque is an entry that is no object. */
  datatype Entry = Opaque(tag: nat) | Message(role: string, content: Content, rest: nat)

  const TOOL := "tool"
  const USER := "user"

  /** The caption of an inserted message, and its other fields. */
  const CAPTION := Plain(0)
  const NO_REST: nat := 0

  predicate IsTool(e: Entry) { e.Message? && e.role == TOOL }

  function PartsOf(e: Entry): seq<Part> { if e.Message? && e.content.Parts? then e.content.parts else [] }

  // One message.

  function Unwrap(s: Source): Source {
    if !s.Dict? then s else if s.url_.None? then Text("") else s.url_.value
  }

  function Adapt(p: Part): Part { if p.Image? then p.(source := Unwrap(p.source)) else p }

  /** The first `n` parts, their sources unwrapped. */
  function AdaptedTo(parts: seq<Part>, n: nat): seq<Part>
    requires n <= |parts|
  {
    if n == 0 then [] else AdaptedTo(parts, n - 1) + [Adapt(parts[n - 1])]
  }

  /** The images among the first `n` parts. */
  function ImagesTo(parts: seq<Part>, n: nat): seq<Part>
    requires n <= |parts|
  {
    if n == 0 then []
    else if parts[n - 1].Image? then ImagesTo(parts, n - 1) + [parts[n - 1]]
    else ImagesTo(parts, n - 1)
  }

  /** The other parts among the first `n`. */
  function OthersTo(parts: seq<Part>, n: nat): seq<Part>
    requires n <= |parts|
  {
    if n == 0 then []
    else if parts[n - 1].Image? then OthersTo(parts, n - 1)
    else OthersTo(parts, n - 1) + [parts[n - 1]]
  }

  function Adapted(parts: seq<Part>): seq<Part> { AdaptedTo(parts, |parts|) }

  function Images(parts: seq<Part>): seq<Part> { ImagesTo(parts, |parts|) }

  function Others(parts: seq<Part>): seq<Part> { OthersTo(parts, |parts|) }

  /** What becomes of an entry itself. */
  function Own(e: Entry): Entry {
    if !e.Message? || !e.content.Parts? then e
    else if !IsTool(e) then e.(content := Parts(Adapted(e.content.parts)))
    else
      var kept := Others(e.content.parts);
      e.(content := if kept == [] && e.content.parts != [] then Notice else Parts(kept))
  }

  /** The images taken out of it. */
  function Taken(e: Entry): seq<Part> { if IsTool(e) then Adapted(Images(PartsOf(e))) else [] }

  lemma {:induction false} AdaptedAt(parts: seq<Part>, n: nat)
    requires n <= |parts|
    ensures |AdaptedTo(parts, n)| == n && forall i | 0 <= i < n :: AdaptedTo(parts, n)[i] == Adapt(parts[i])
  {
    if n > 0 {
      AdaptedAt(parts, n - 1);
    }
  }

  lemma {:induction false} SamePrefix(a: seq<Part>, b: seq<Part>, n: nat)
    requires n <= |a| && n <= |b| && forall i | 0 <= i < n :: a[i] == b[i]
    ensures AdaptedTo(a, n) == AdaptedTo(b, n) && ImagesTo(a, n) == ImagesTo(b, n) && OthersTo(a, n) == OthersTo(b, n)
  {
    if n > 0 {
      SamePrefix(a, b, n - 1);
    }
  }

  lemma PartsSnoc(parts: seq<Part>, p: Part)
    ensures Adapted(parts + [p]) == Adapted(parts) + [Adapt(p)]
    ensures Images(parts + [p]) == if p.Image? then Images(parts) + [p] else Images(parts)
  {
    SamePrefix(parts + [p], parts, |parts|);
  }

  lemma {:induction false} ImagesAre(parts: seq<Part>, n: nat)
    requires n <= |parts|
    ensures forall i | 0 <= i < |ImagesTo(parts, n)| :: ImagesTo(parts, n)[i].Image?
    ensures ImagesTo(parts, n) == [] ==> OthersTo(parts, n) == parts[..n]
    ensures |OthersTo(parts, n)| + |ImagesTo(parts, n)| == n
  {
    if n > 0 {
      ImagesAre(parts, n - 1);
      assert parts[..n] == parts[..n - 1] + [parts[n - 1]];
    }
  }

  lemma {:induction false} ImageIn(parts: seq<Part>, n: nat, i: nat)
    requires i < n <= |parts| && parts[i].Image?
    ensures parts[i] in ImagesTo(parts, n)
  {
    if i < n - 1 {
      ImageIn(parts, n - 1, i);
    }
  }

  lemma {:induction false} OthersAreNoImages(parts: seq<Part>, n: nat)
    requires n <= |parts|
    ensures Images(OthersTo(parts, n)) == []
  {
    if n > 0 {
      OthersAreNoImages(parts, n - 1);
      if !parts[n - 1].Image? {
        PartsSnoc(OthersTo(parts, n - 1), parts[n - 1]);
      }
    }
  }

  lemma {:induction false} AllImagesStay(images: seq<Part>, n: nat)
    requires n <= |images| && forall i | 0 <= i < n :: images[i].Image?
    ensures ImagesTo(images, n) == images[..n]
  {
    if n > 0 {
      AllImagesStay(images, n - 1);
      assert images[..n] == images[..n - 1] + [images[n - 1]];
    }
  }

  lemma {:induction false} ImagesAdapt(parts: seq<Part>, n: nat)
    requires n <= |parts|
    ensures Images(AdaptedTo(parts, n)) == Adapted(ImagesTo(parts, n))
  {
    if n > 0 {
      ImagesAdapt(parts, n - 1);
      PartsSnoc(AdaptedTo(parts, n - 1), Adapt(parts[n - 1]));
      PartsSnoc(ImagesTo(parts, n - 1), parts[n - 1]);
    }
  }

  /** The image parts of an entry. */
  function ImagesIn(e: Entry): seq<Part> { Images(PartsOf(e)) }

  /** An entry and what is taken out of it together hold its images, unwrapped. */
  lemma OwnImages(e: Entry)
    ensures ImagesIn(Own(e)) + Taken(e) == Adapted(ImagesIn(e))
    ensures IsTool(Own(e)) == IsTool(e) && (IsTool(e) ==> ImagesIn(Own(e)) == [])
    ensures Images(Taken(e)) == Taken(e)
  {
    var parts := PartsOf(e);
    ImagesAdapt(parts, |parts|);
    OthersAreNoImages(parts, |parts|);
    TakenAreImages(e);
  }

  lemma TakenAreImages(e: Entry)
    ensures Images(Taken(e)) == Taken(e)
  {
    var (parts, taken) := (PartsOf(e), Taken(e));
    ImagesAre(parts, |parts|);
    AdaptedAt(Images(parts), |Images(parts)|);
    AllImagesStay(taken, |taken|);
    assert taken[..|taken|] == taken;
  }

  // Placing the images.

  /** One entry taken apart. */
  datatype Split = Split(own: Entry, taken: seq<Part>, tool: bool)

  function SplitOf(e: Entry): Split { Split(Own(e), Taken(e), IsTool(e)) }

  function Splits(entries: seq<Entry>): seq<Split> {
    seq(|entries|, i requires 0 <= i < |entries| => SplitOf(entries[i]))
  }

  /** The images of the run of tool results that ends the first `n` entries. */
  function PendingTo(s: seq<Split>, n: nat): seq<Part>
    requires n <= |s|
  {
    if n == 0 || !s[n - 1].tool then [] else PendingTo(s, n - 1) + s[n - 1].taken
  }

  /** What is sent: an entry of the history, or an inserted user message. */
  datatype Sent = Kept(entry: Entry) | Added(images: seq<Part>)

  function Flush(images: seq<Part>): seq<Sent> { if images == [] then [] else [Added(images)] }

  /** Before an entry that is no tool result come the images of the run it ends. */
  function Emit(sent: seq<Sent>, pending: seq<Part>, x: Split): seq<Sent> {
    (if x.tool then sent else sent + Flush(pending)) + [Kept(x.own)]
  }

  /** Everything sent for the first `n` entries, but for a last flush. */
  function EmittedTo(s: seq<Split>, n: nat): seq<Sent>
    requires n <= |s|
  {
    if n == 0 then [] else Emit(EmittedTo(s, n - 1), PendingTo(s, n - 1), s[n - 1])
  }

  function Rewritten(entries: seq<Entry>): seq<Sent> {
    EmittedTo(Splits(entries), |entries|) + Flush(PendingTo(Splits(entries), |entries|))
  }

  function Wire(x: Sent): Entry {
    match x
    case Kept(e) => e
    case Added(images) => Message(USER, Parts([CAPTION] + images), NO_REST)
  }

  function Wires(sent: seq<Sent>): seq<Entry> {
    seq(|sent|, i requires 0 <= i < |sent| => Wire(sent[i]))
  }

  // The program.

  /** The parts that stay, and the pending images with those taken. */
  method ProjectParts(content: seq<Part>, tool: bool, before: seq<Part>) returns (parts: seq<Part>, images: seq<Part>)
    ensures parts == if tool then Others(content) else Adapted(content)
    ensures images == before + if tool then Adapted(Images(content)) else []
  {
    parts, images := [], before;
    for i := 0 to |content|
      invariant parts == if tool then OthersTo(content, i) else AdaptedTo(content, i)
      invariant images == before + if tool then Adapted(ImagesTo(content, i)) else []
    {
      var part := content[i];
      PartsSnoc(ImagesTo(content, i), part);
      if part.Image? {
        part := part.(source := Unwrap(part.source));
        if tool {
          images := images + [part];
          continue;
        }
      }
      parts := parts + [part];
    }
  }

  /** One message, and the pending images with those taken from it. */
  method Project(original: Entry, before: seq<Part>) returns (message: Entry, toolImages: seq<Part>)
    ensures message == Own(original) && toolImages == before + Taken(original)
  {
    message, toolImages := original, before;
    if message.Message? && message.content.Parts? {
      var parts;
      parts, toolImages := ProjectParts(message.content.parts, IsTool(message), toolImages);
      AdaptedAt(message.content.parts, |message.content.parts|);
      ImagesAre(message.content.parts, |message.content.parts|);
      message := message.(content :=
        if parts == [] && |parts| != |message.content.parts| then Notice else Parts(parts));
    }
  }

  /** `codex`: the model's name starts with cx/ or codex/. */
  method RouterImageMessages(messages: seq<Entry>, codex: bool) returns (result: seq<Entry>)
    ensures result == if codex then Wires(Rewritten(messages)) else messages
  {
    if !codex { return messages; }
    result := [];
    var toolImages: seq<Part> := [];
    ghost var s := Splits(messages);
    for i := 0 to |messages|
      invariant result == Wires(EmittedTo(s, i)) && toolImages == PendingTo(s, i)
    {
      result, toolImages := Append(result, toolImages, messages[i], EmittedTo(s, i));
    }
    WiresFlush(EmittedTo(s, |messages|), toolImages);
    if toolImages != [] { result := result + [Wire(Added(toolImages))]; }
  }

  /** One iteration: flush before anything but a tool result, then the message itself. */
  method Append(before: seq<Entry>, waiting: seq<Part>, original: Entry, ghost sent: seq<Sent>)
    returns (result: seq<Entry>, toolImages: seq<Part>)
    requires before == Wires(sent)
    ensures result == Wires(Emit(sent, waiting, SplitOf(original)))
    ensures toolImages == if IsTool(original) then waiting + Taken(original) else []
  {
    result, toolImages := before, waiting;
    if !IsTool(original) {
      if toolImages != [] { result := result + [Wire(Added(toolImages))]; }
      toolImages := [];
    }
    var message;
    message, toolImages := Project(original, toolImages);
    result := result + [message];
    WiresEmit(sent, waiting, SplitOf(original));
    WiresFlush(sent, waiting);
  }

  lemma WiresFlush(sent: seq<Sent>, images: seq<Part>)
    ensures Wires(sent + Flush(images)) ==
      if images == [] then Wires(sent) else Wires(sent) + [Wire(Added(images))]
  {
  }

  lemma WiresEmit(sent: seq<Sent>, pending: seq<Part>, x: Split)
    ensures Wires(Emit(sent, pending, x)) ==
      (if x.tool then Wires(sent) else Wires(sent + Flush(pending))) + [x.own]
  {
    WiresFlush(sent, pending);
  }

  // What the rewriting preserves.

  /** What is sent, without the inserted messages. */
  function KeptOnly(sent: seq<Sent>): seq<Entry> {
    if sent == [] then []
    else if sent[|sent| - 1].Kept? then KeptOnly(sent[..|sent| - 1]) + [sent[|sent| - 1].entry]
    else KeptOnly(sent[..|sent| - 1])
  }

  lemma KeptSnoc(sent: seq<Sent>, x: Sent)
    ensures KeptOnly(sent + [x]) == if x.Kept? then KeptOnly(sent) + [x.entry] else KeptOnly(sent)
  {
    assert (sent + [x])[..|sent|] == sent;
  }

  lemma KeptFlush(sent: seq<Sent>, images: seq<Part>)
    ensures KeptOnly(sent + Flush(images)) == KeptOnly(sent)
  {
    if images == [] {
      assert sent + Flush(images) == sent;
    } else {
      KeptSnoc(sent, Added(images));
    }
  }

  lemma KeptEmit(sent: seq<Sent>, pending: seq<Part>, x: Split)
    ensures KeptOnly(Emit(sent, pending, x)) == KeptOnly(sent) + [x.own]
  {
    KeptFlush(sent, pending);
    KeptSnoc(if x.tool then sent else sent + Flush(pending), Kept(x.own));
  }

  function OwnsTo(s: seq<Split>, n: nat): (owns: seq<Entry>)
    requires n <= |s|
    ensures |owns| == n && forall i | 0 <= i < n :: owns[i] == s[i].own
  {
    if n == 0 then [] else OwnsTo(s, n - 1) + [s[n - 1].own]
  }

  lemma {:induction false} EmittedKeeps(s: seq<Split>, n: nat)
    requires n <= |s|
    ensures KeptOnly(EmittedTo(s, n)) == OwnsTo(s, n)
  {
    if n > 0 {
      EmittedKeeps(s, n - 1);
      KeptEmit(EmittedTo(s, n - 1), PendingTo(s, n - 1), s[n - 1]);
    }
  }

  /** Both entries agree but for the image parts and their sources. */
  predicate SameEntry(e: Entry, k: Entry) {
    && (e.Opaque? || !e.content.Parts? ==> k == e)
    && (e.Message? ==> k.Message? && k.role == e.role && k.rest == e.rest)
    && (e.Message? && e.content.Parts? && e.role != TOOL ==> k.content == Parts(Adapted(e.content.parts)))
    && (IsTool(e) ==> PartsOf(k) == Others(PartsOf(e)) && Images(PartsOf(k)) == [])
    && (k.Message? && k.content.Notice? <==> e.Message? && (e.content.Notice? || OnlyImages(e)))
  }

  /** A tool result that holds images and nothing else. */
  predicate OnlyImages(e: Entry) {
    IsTool(e) && PartsOf(e) != [] && forall i | 0 <= i < |PartsOf(e)| :: PartsOf(e)[i].Image?
  }

  lemma OwnIsSame(e: Entry)
    ensures SameEntry(e, Own(e))
  {
    OthersAreNoImages(PartsOf(e), |PartsOf(e)|);
    NoOthers(PartsOf(e), |PartsOf(e)|);
  }

  lemma {:induction false} NoOthers(parts: seq<Part>, n: nat)
    requires n <= |parts|
    ensures OthersTo(parts, n) == [] <==> forall i | 0 <= i < n :: parts[i].Image?
  {
    if n > 0 {
      NoOthers(parts, n - 1);
    }
  }

  /** Every entry of the history is sent once, in order, with its role; only list content changes. */
  lemma HistoryIsKept(entries: seq<Entry>)
    ensures |KeptOnly(Rewritten(entries))| == |entries|
    ensures forall i | 0 <= i < |entries| :: SameEntry(entries[i], KeptOnly(Rewritten(entries))[i])
  {
    var s := Splits(entries);
    EmittedKeeps(s, |entries|);
    KeptFlush(EmittedTo(s, |entries|), PendingTo(s, |entries|));
    forall i | 0 <= i < |entries| ensures SameEntry(entries[i], KeptOnly(Rewritten(entries))[i]) {
      OwnIsSame(entries[i]);
      assert s[i].own == Own(entries[i]);
    }
  }

  /** All image parts of the first `n` entries, in order. */
  function AllImagesTo(entries: seq<Entry>, n: nat): seq<Part>
    requires n <= |entries|
  {
    if n == 0 then [] else AllImagesTo(entries, n - 1) + ImagesIn(entries[n - 1])
  }

  function AllImages(entries: seq<Entry>): seq<Part> { AllImagesTo(entries, |entries|) }

  lemma {:induction false} SameImages(a: seq<Entry>, b: seq<Entry>, n: nat)
    requires n <= |a| && n <= |b| && forall i | 0 <= i < n :: a[i] == b[i]
    ensures AllImagesTo(a, n) == AllImagesTo(b, n)
  {
    if n > 0 {
      SameImages(a, b, n - 1);
    }
  }

  lemma ImagesSnoc(entries: seq<Entry>, e: Entry)
    ensures AllImages(entries + [e]) == AllImages(entries) + ImagesIn(e)
  {
    SameImages(entries + [e], entries, |entries|);
  }

  lemma {:induction false} AdaptedConcat(a: seq<Part>, b: seq<Part>, n: nat)
    requires n <= |b|
    ensures AdaptedTo(a + b, |a| + n) == Adapted(a) + AdaptedTo(b, n)
  {
    if n == 0 {
      SamePrefix(a + b, a, |a|);
    } else {
      AdaptedConcat(a, b, n - 1);
      assert (a + b)[|a| + n - 1] == b[n - 1];
    }
  }

  lemma AddedImages(images: seq<Part>)
    requires Images(images) == images
    ensures ImagesIn(Wire(Added(images))) == images
  {
    var parts := [CAPTION] + images;
    ImagesAfterCaption(images, |images|);
    assert PartsOf(Wire(Added(images))) == parts;
  }

  lemma {:induction false} ImagesAfterCaption(images: seq<Part>, n: nat)
    requires n <= |images|
    ensures ImagesTo([CAPTION] + images, n + 1) == ImagesTo(images, n)
  {
    if n > 0 {
      ImagesAfterCaption(images, n - 1);
      assert ([CAPTION] + images)[n] == images[n - 1];
    }
  }

  /** What is known of the split of an entry `e`. */
  predicate Splitting(x: Split, e: Entry) {
    && x.tool == IsTool(e) && IsTool(x.own) == x.tool && Images(x.taken) == x.taken
    && (if x.tool then ImagesIn(x.own) == [] else x.taken == [])
    && ImagesIn(x.own) + x.taken == Adapted(ImagesIn(e))
  }

  predicate SplittingAll(s: seq<Split>, entries: seq<Entry>) {
    |s| == |entries| && forall i {:trigger Splitting(s[i], entries[i])} | 0 <= i < |s| :: Splitting(s[i], entries[i])
  }

  lemma SplitsSplit(entries: seq<Entry>)
    ensures SplittingAll(Splits(entries), entries)
  {
    forall i | 0 <= i < |entries| ensures Splitting(Splits(entries)[i], entries[i]) {
      OwnImages(entries[i]);
    }
  }

  lemma {:induction false} PendingAreImages(s: seq<Split>, entries: seq<Entry>, n: nat)
    requires n <= |s| && SplittingAll(s, entries)
    ensures Images(PendingTo(s, n)) == PendingTo(s, n)
  {
    if n > 0 {
      PendingAreImages(s, entries, n - 1);
      assert Splitting(s[n - 1], entries[n - 1]);
      ImagesConcat(PendingTo(s, n - 1), s[n - 1].taken, |s[n - 1].taken|);
    }
  }

  lemma {:induction false} ImagesConcat(a: seq<Part>, b: seq<Part>, n: nat)
    requires n <= |b|
    ensures ImagesTo(a + b, |a| + n) == Images(a) + ImagesTo(b, n)
  {
    if n == 0 {
      SamePrefix(a + b, a, |a|);
    } else {
      ImagesConcat(a, b, n - 1);
      assert (a + b)[|a| + n - 1] == b[n - 1];
    }
  }

  lemma FlushImages(sent: seq<Sent>, images: seq<Part>)
    requires Images(images) == images
    ensures AllImages(Wires(sent + Flush(images))) == AllImages(Wires(sent)) + images
  {
    WiresFlush(sent, images);
    if images != [] {
      AddedImages(images);
      ImagesSnoc(Wires(sent), Wire(Added(images)));
    }
  }

  /** Images sent, waiting and of one more entry, regrouped. */
  lemma Regroup(sent: seq<Part>, waiting: seq<Part>, own: seq<Part>, taken: seq<Part>, tool: bool)
    requires if tool then own == [] else taken == []
    ensures ((if tool then sent else sent + waiting) + own) + (if tool then waiting + taken else []) ==
      (sent + waiting) + (own + taken)
  {
  }

  lemma EmittedImages(sent: seq<Sent>, pending: seq<Part>, x: Split)
    requires Images(pending) == pending
    ensures AllImages(Wires(Emit(sent, pending, x))) ==
      (if x.tool then AllImages(Wires(sent)) else AllImages(Wires(sent)) + pending) + ImagesIn(x.own)
  {
    FlushImages(sent, pending);
    WiresEmit(sent, pending, x);
    ImagesSnoc(if x.tool then Wires(sent) else Wires(sent + Flush(pending)), x.own);
  }

  /** What was sent and what still waits are together these images, unwrapped. */
  predicate NoneLost(sent: seq<Sent>, pending: seq<Part>, images: seq<Part>) {
    AllImages(Wires(sent)) + pending == Adapted(images)
  }

  lemma NothingIsLostStep(sent: seq<Sent>, pending: seq<Part>, x: Split, e: Entry, before: seq<Part>)
    requires Splitting(x, e) && Images(pending) == pending
    requires NoneLost(sent, pending, before)
    ensures NoneLost(Emit(sent, pending, x), if x.tool then pending + x.taken else [], before + ImagesIn(e))
  {
    EmittedImages(sent, pending, x);
    AdaptedAppend(before, ImagesIn(e));
    Regroup(AllImages(Wires(sent)), pending, ImagesIn(x.own), x.taken, x.tool);
  }

  lemma AdaptedAppend(a: seq<Part>, b: seq<Part>)
    ensures Adapted(a + b) == Adapted(a) + Adapted(b)
  {
    AdaptedConcat(a, b, |b|);
  }

  lemma {:induction false} NothingIsLost(s: seq<Split>, entries: seq<Entry>, n: nat,
                                         sent: seq<Sent>, pending: seq<Part>, images: seq<Part>)
    requires n <= |s| && SplittingAll(s, entries)
    requires sent == EmittedTo(s, n) && pending == PendingTo(s, n) && images == AllImagesTo(entries, n)
    ensures NoneLost(sent, pending, images)
    decreases n
  {
    if n == 0 {
      NoneLostAtFirst();
    } else {
      assert Splitting(s[n - 1], entries[n - 1]);
      var sent', pending', before := EmittedTo(s, n - 1), PendingTo(s, n - 1), AllImagesTo(entries, n - 1);
      NothingIsLost(s, entries, n - 1, sent', pending', before);
      PendingAreImages(s, entries, n - 1);
      NothingIsLostNext(sent', pending', s[n - 1], entries[n - 1], before, sent, pending, images);
    }
  }

  lemma NoneLostAtFirst()
    ensures NoneLost([], [], [])
  {
    assert Wires([]) == [];
  }

  lemma NothingIsLostNext(sent: seq<Sent>, pending: seq<Part>, x: Split, e: Entry, before: seq<Part>,
                          more: seq<Sent>, waiting: seq<Part>, after: seq<Part>)
    requires Splitting(x, e) && Images(pending) == pending && NoneLost(sent, pending, before)
    requires more == Emit(sent, pending, x) && waiting == (if x.tool then pending + x.taken else [])
    requires after == before + ImagesIn(e)
    ensures NoneLost(more, waiting, after)
  {
    NothingIsLostStep(sent, pending, x, e, before);
  }

  /** Every image is sent exactly once, in order, with its source unwrapped. */
  lemma EveryImageIsSentOnce(entries: seq<Entry>)
    ensures AllImages(Wires(Rewritten(entries))) == Adapted(AllImages(entries))
  {
    var s := Splits(entries);
    SplitsSplit(entries);
    NothingIsLost(s, entries, |entries|, EmittedTo(s, |entries|), PendingTo(s, |entries|), AllImages(entries));
    PendingAreImages(s, entries, |entries|);
    FlushImages(EmittedTo(s, |entries|), PendingTo(s, |entries|));
  }

  /** The same part; the source of an image is its url if it was an object, and empty text
      if that object has none. */
  predicate Unwrapped(before: Part, after: Part) {
    match before
    case Plain(_) => after == before
    case Image(kind, source, rest) =>
      && after.Image? && after.kind == kind && after.rest == rest
      && match source
         case Dict(Some(url), _) => after.source == url
         case Dict(None, _) => after.source == Text("")
         case _ => after.source == source
  }

  predicate AllUnwrapped(before: seq<Part>, after: seq<Part>) {
    |after| == |before| && forall k | 0 <= k < |before| :: Unwrapped(before[k], after[k])
  }

  /** Every part that stays where it is. */
  lemma AdaptedIsUnwrapped(parts: seq<Part>)
    ensures AllUnwrapped(parts, Adapted(parts))
  {
    AdaptedAt(parts, |parts|);
    forall k | 0 <= k < |parts| ensures Unwrapped(parts[k], Adapted(parts)[k]) {
      AdaptUnwraps(parts[k]);
    }
  }

  lemma AdaptUnwraps(p: Part)
    ensures Unwrapped(p, Adapt(p))
  {
  }

  /** Every image, wherever it is sent. */
  lemma SentImagesAreUnwrapped(entries: seq<Entry>)
    ensures AllUnwrapped(AllImages(entries), AllImages(Wires(Rewritten(entries))))
  {
    EveryImageIsSentOnce(entries);
    AdaptedIsUnwrapped(AllImages(entries));
  }

  lemma {:induction false} SameEmitted(s: seq<Split>, t: seq<Split>, n: nat)
    requires n <= |s| && n <= |t| && forall i | 0 <= i < n :: s[i] == t[i]
    ensures EmittedTo(s, n) == EmittedTo(t, n) && PendingTo(s, n) == PendingTo(t, n)
  {
    if n > 0 {
      SameEmitted(s, t, n - 1);
    }
  }

  lemma {:induction false} EmittedGrows(s: seq<Split>, n: nat, m: nat)
    requires n <= m <= |s|
    ensures EmittedTo(s, n) <= EmittedTo(s, m)
    decreases m - n
  {
    if n < m {
      EmittedGrows(s, n, m - 1);
    }
  }

  /** Up to an entry that is no tool result, what is sent is the rewriting of what came
      before it: every image of a run of tool results has been sent by the end of the run. */
  lemma RunsAreSentWhole(entries: seq<Entry>, n: nat)
    requires n < |entries| && !IsTool(entries[n])
    ensures Rewritten(entries[..n]) + [Kept(Own(entries[n]))] <= Rewritten(entries)
  {
    var (s, t) := (Splits(entries), Splits(entries[..n]));
    assert s[n] == SplitOf(entries[n]);
    RunEnds(s, t, n);
  }

  lemma RunEnds(s: seq<Split>, t: seq<Split>, n: nat)
    requires n < |s| && |t| == n && (forall i | 0 <= i < n :: s[i] == t[i]) && !s[n].tool
    ensures EmittedTo(t, n) + Flush(PendingTo(t, n)) + [Kept(s[n].own)] <= EmittedTo(s, |s|) + Flush(PendingTo(s, |s|))
  {
    hide EmittedTo, PendingTo, Emit, Flush;
    SameEmitted(s, t, n);
    EmittedGrows(s, n + 1, |s|);
    EmittedNext(s, n);
    FlushedFirst(EmittedTo(s, n), PendingTo(s, n), s[n], EmittedTo(s, n + 1), EmittedTo(s, |s|), Flush(PendingTo(s, |s|)));
  }

  lemma EmittedNext(s: seq<Split>, n: nat)
    requires n < |s|
    ensures EmittedTo(s, n + 1) == Emit(EmittedTo(s, n), PendingTo(s, n), s[n])
  {
  }

  lemma FlushedFirst(sent: seq<Sent>, pending: seq<Part>, x: Split, more: seq<Sent>, all: seq<Sent>, last: seq<Sent>)
    requires !x.tool && more == Emit(sent, pending, x) && more <= all
    ensures sent + Flush(pending) + [Kept(x.own)] <= all + last
  {
  }

  /** Everything inserted stands after a tool result and before none. */
  predicate WellPlaced(sent: seq<Sent>, k: nat)
    requires k < |sent|
  {
    sent[k].Added? ==>
      && k > 0 && sent[k - 1].Kept? && IsTool(sent[k - 1].entry)
      && (k + 1 < |sent| ==> sent[k + 1].Kept? && !IsTool(sent[k + 1].entry))
  }

  predicate AllPlaced(sent: seq<Sent>) { forall k {:trigger WellPlaced(sent, k)} | 0 <= k < |sent| :: WellPlaced(sent, k) }

  /** So far, and with what waits flushed behind it. */
  predicate Placed(sent: seq<Sent>, pending: seq<Part>) {
    AllPlaced(sent + Flush(pending)) && (sent != [] ==> sent[|sent| - 1].Kept?)
  }

  lemma PlacedStep(sent: seq<Sent>, pending: seq<Part>, x: Split)
    requires Placed(sent, pending) && IsTool(x.own) == x.tool
    ensures Placed(Emit(sent, pending, x), if x.tool then pending + x.taken else [])
  {
    var waiting := if x.tool then pending + x.taken else [];
    var before, after := sent + Flush(pending), Emit(sent, pending, x) + Flush(waiting);
    forall k | 0 <= k < |after| ensures WellPlaced(after, k) {
      if k < |Emit(sent, pending, x)| - 1 {
        assert WellPlaced(before, k) && after[k] == before[k];
        assert k + 1 < |sent| ==> after[k + 1] == before[k + 1];
        assert k > 0 ==> after[k - 1] == before[k - 1];
      }
    }
  }

  lemma {:induction false} PlacedTo(s: seq<Split>, n: nat)
    requires n <= |s| && forall i {:trigger s[i].own} | 0 <= i < |s| :: IsTool(s[i].own) == s[i].tool
    ensures Placed(EmittedTo(s, n), PendingTo(s, n))
  {
    if n == 0 {
      assert EmittedTo(s, 0) + Flush(PendingTo(s, 0)) == [];
    } else {
      PlacedTo(s, n - 1);
      assert IsTool(s[n - 1].own) == s[n - 1].tool;
      PlacedStep(EmittedTo(s, n - 1), PendingTo(s, n - 1), s[n - 1]);
    }
  }

  /** An inserted message follows a tool result and precedes none, so it never
      splits a run of tool results. */
  lemma InsertedAfterTheRun(entries: seq<Entry>, k: nat)
    requires k < |Rewritten(entries)| && Rewritten(entries)[k].Added?
    ensures k > 0 && Rewritten(entries)[k - 1].Kept? && IsTool(Rewritten(entries)[k - 1].entry)
    ensures k + 1 < |Rewritten(entries)| ==>
      Rewritten(entries)[k + 1].Kept? && !IsTool(Rewritten(entries)[k + 1].entry)
    ensures var e := Wire(Rewritten(entries)[k]);
      e.role == "user" && PartsOf(e) == [CAPTION] + Rewritten(entries)[k].images
  {
    forall i | 0 <= i < |entries| ensures IsTool(Splits(entries)[i].own) == Splits(entries)[i].tool {
      assert Splits(entries)[i] == SplitOf(entries[i]);
    }
    PlacedTo(Splits(entries), |entries|);
    assert WellPlaced(Rewritten(entries), k);
  }

  // Sending what has been sent before.

  /** An image source that a second pass would unwrap again. */
  predicate Nested(p: Part) { p.Image? && Unwrap(p.source).Dict? }

  predicate Stable(p: Part) { p.Image? ==> !p.source.Dict? }

  predicate AllStable(parts: seq<Part>) { forall i | 0 <= i < |parts| :: Stable(parts[i]) }

  /** Nothing is left to do for this entry. */
  predicate Settled(e: Entry) { AllStable(PartsOf(e)) && (IsTool(e) ==> ImagesIn(e) == []) }

  lemma {:induction false} StableAdapts(parts: seq<Part>)
    ensures Adapted(parts) == parts <==> AllStable(parts)
  {
    AdaptedAt(parts, |parts|);
    if Adapted(parts) == parts {
      forall i | 0 <= i < |parts| ensures Stable(parts[i]) {
        assert Adapt(parts[i]) == parts[i];
      }
    }
  }

  lemma SettledSplits(e: Entry)
    requires Settled(e)
    ensures SplitOf(e) == Split(e, [], IsTool(e))
  {
    var parts := PartsOf(e);
    StableAdapts(parts);
    ImagesAre(parts, |parts|);
    assert parts[..|parts|] == parts;
  }

  predicate Bare(e: Entry) { IsTool(e) ==> ImagesIn(e) == [] }

  predicate AllBare(sent: seq<Sent>) { forall k {:trigger sent[k]} | 0 <= k < |sent| :: Bare(Wire(sent[k])) }

  lemma BareStep(sent: seq<Sent>, pending: seq<Part>, x: Split)
    requires AllBare(sent) && Bare(x.own)
    ensures AllBare(Emit(sent, pending, x))
  {
  }

  lemma {:induction false} BareTo(s: seq<Split>, n: nat)
    requires n <= |s| && forall i {:trigger Bare(s[i].own)} | 0 <= i < |s| :: Bare(s[i].own)
    ensures AllBare(EmittedTo(s, n))
  {
    if n > 0 {
      BareTo(s, n - 1);
      assert Bare(s[n - 1].own);
      BareStep(EmittedTo(s, n - 1), PendingTo(s, n - 1), s[n - 1]);
    }
  }

  /** No tool result that is sent carries an image. */
  lemma SentToolsAreBare(entries: seq<Entry>)
    ensures forall e | e in Wires(Rewritten(entries)) && IsTool(e) :: ImagesIn(e) == []
  {
    forall i | 0 <= i < |entries| ensures Bare(Splits(entries)[i].own) {
      OwnImages(entries[i]);
    }
    BareTo(Splits(entries), |entries|);
    assert AllBare(Rewritten(entries));
  }

  lemma {:induction false} InAllImages(entries: seq<Entry>, n: nat, i: nat, p: Part)
    requires i < n <= |entries| && p in ImagesIn(entries[i])
    ensures p in AllImagesTo(entries, n)
  {
    if i < n - 1 {
      InAllImages(entries, n - 1, i, p);
    }
  }

  lemma {:induction false} ImagesOnly(entries: seq<Entry>, n: nat, p: Part)
    requires n <= |entries| && p in AllImagesTo(entries, n)
    ensures p.Image?
  {
    if p in ImagesIn(entries[n - 1]) {
      ImagesAre(PartsOf(entries[n - 1]), |PartsOf(entries[n - 1])|);
    } else {
      ImagesOnly(entries, n - 1, p);
    }
  }

  /** Every image sent is an image of the history, unwrapped once. */
  lemma SentSource(entries: seq<Entry>, p: Part)
    requires p in AllImages(Wires(Rewritten(entries)))
    requires forall q | q in AllImages(entries) :: !Nested(q)
    ensures Stable(p)
  {
    EveryImageIsSentOnce(entries);
    var images := AllImages(entries);
    AdaptedAt(images, |images|);
    var k :| 0 <= k < |images| && Adapt(images[k]) == p;
    ImagesOnly(entries, |entries|, images[k]);
    assert images[k] in AllImages(entries);
  }

  lemma SentIsSettled(entries: seq<Entry>, k: nat)
    requires forall q | q in AllImages(entries) :: !Nested(q)
    requires k < |Rewritten(entries)|
    ensures Settled(Wire(Rewritten(entries)[k]))
  {
    var (sent, e) := (Wires(Rewritten(entries)), Wire(Rewritten(entries)[k]));
    SentToolsAreBare(entries);
    assert sent[k] == e;
    var parts := PartsOf(e);
    forall i | 0 <= i < |parts| ensures Stable(parts[i]) {
      if parts[i].Image? {
        ImageIn(parts, |parts|, i);
        InAllImages(sent, |sent|, k, parts[i]);
        SentSource(entries, parts[i]);
      }
    }
  }

  /** Settled entries are sent as they are, and nothing waits. */
  lemma {:induction false} SettledIsFixed(entries: seq<Entry>, s: seq<Split>, n: nat)
    requires n <= |entries| == |s| && forall i | 0 <= i < n :: s[i] == Split(entries[i], [], s[i].tool)
    ensures PendingTo(s, n) == [] && Wires(EmittedTo(s, n)) == entries[..n]
  {
    if n > 0 {
      SettledIsFixed(entries, s, n - 1);
      SettledNext(entries, s, n - 1, EmittedTo(s, n - 1), PendingTo(s, n - 1), EmittedTo(s, n), PendingTo(s, n));
    }
  }

  lemma SettledNext(entries: seq<Entry>, s: seq<Split>, n: nat,
                    sent: seq<Sent>, pending: seq<Part>, more: seq<Sent>, waiting: seq<Part>)
    requires n < |entries| == |s| && s[n] == Split(entries[n], [], s[n].tool)
    requires pending == [] && Wires(sent) == entries[..n]
    requires more == Emit(sent, pending, s[n]) && waiting == if s[n].tool then pending + s[n].taken else []
    ensures waiting == [] && Wires(more) == entries[..n + 1]
  {
    WiresEmit(sent, [], s[n]);
    WiresFlush(sent, []);
    assert entries[..n + 1] == entries[..n] + [entries[n]];
  }

  lemma SettledStay(entries: seq<Entry>)
    requires forall i | 0 <= i < |entries| :: Settled(entries[i])
    ensures Wires(Rewritten(entries)) == entries
  {
    var s := Splits(entries);
    forall i | 0 <= i < |entries| ensures s[i] == Split(entries[i], [], s[i].tool) {
      SettledSplits(entries[i]);
    }
    SettledIsFixed(entries, s, |entries|);
    assert entries[..|entries|] == entries;
    WiresFlush(EmittedTo(s, |entries|), []);
  }

  lemma FixedHasNoNesting(entries: seq<Entry>, sent: seq<Entry>, k: nat)
    requires sent == Wires(Rewritten(entries)) && Wires(Rewritten(sent)) == sent
    requires k < |AllImages(entries)|
    ensures !Nested(AllImages(entries)[k])
  {
    EveryImageIsSentOnce(entries);
    EveryImageIsSentOnce(sent);
    var images := AllImages(entries);
    AdaptedAt(images, |images|);
    StableAdapts(Adapted(images));
    assert Stable(Adapted(images)[k]);
  }

  /** Rewriting twice is rewriting once exactly when no image's source, unwrapped,
      is an object again. */
  lemma IdempotentExactlyWithoutNesting(entries: seq<Entry>)
    ensures var sent := Wires(Rewritten(entries));
      Wires(Rewritten(sent)) == sent <==> forall p | p in AllImages(entries) :: !Nested(p)
  {
    var sent := Wires(Rewritten(entries));
    if forall p | p in AllImages(entries) :: !Nested(p) {
      forall k | 0 <= k < |sent| ensures Settled(sent[k]) {
        SentIsSettled(entries, k);
      }
      SettledStay(sent);
    }
    if Wires(Rewritten(sent)) == sent {
      forall k | 0 <= k < |AllImages(entries)| ensures !Nested(AllImages(entries)[k]) {
        FixedHasNoNesting(entries, sent, k);
      }
    }
  }
}
