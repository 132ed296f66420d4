/**
 * Fitting a conversation into the context window: which images of which turns
 * are loaded, and how much of the history is kept.
 */
module HistoryBudget {
  import opened Options

  const VISION_MAX_IMAGES_PER_TURN := 3
  const VISION_IMAGE_HISTORY_CHAR_COST := 2_000

  // ----- Images -----

  datatype Attachment = Attachment(url: string, supportedMime: bool)
  datatype Turn = Turn(attachments: seq<Attachment>, imagesAllowed: bool)
  datatype Image = Image(url: string, bytes: nat)
  datatype Reason = NotShown | LimitReached | LoadFailed(why: Failure)
  datatype Note = Note(attachment: Attachment, reason: Reason)
  datatype TurnImages = TurnImages(images: seq<Image>, notes: seq<Note>)
  datatype Limits = Limits(visionEnabled: bool, perTurn: int, perImage: int, total: int)

  /** What a web request for an image may come back with. */
  datatype Reply = Threw | NotOk(status: int) | Body(declared: Option<int>, bytes: Option<nat>)
  datatype Failure = NotLoaded | Gone | TooLarge
  datatype Fetched = Loaded(bytes: nat) | Failure(why: Failure)

  /** Whether an attachment is shown as an image or mentioned in a note. */
  datatype Verdict = Noted(reason: Reason) | Shown(bytes: nat)

  /** The reply to the request for an attachment: by the age of its turn (0 for the
      newest), its position there, and its address. No request is made twice, so
      equal addresses may well be answered differently. */
  type Fetch = (nat, nat, string) -> Reply

  /** A fetch never yields an empty image or one above the limit. */
  function FetchImageBytes(reply: Reply, limit: int): (r: Fetched)
    ensures r.Loaded? <==>
      && reply.Body? && reply.bytes.Some? && 0 < reply.bytes.value <= limit
      && (reply.declared.Some? ==> reply.declared.value <= limit)
    ensures r.Loaded? ==> reply.bytes == Some(r.bytes)
    ensures r == Failure(Gone) <==> reply == NotOk(404)
    ensures r == Failure(TooLarge) <==>
      && reply.Body?
      && ((reply.declared.Some? && reply.declared.value > limit)
          || (reply.bytes.Some? && reply.bytes.value > 0 && reply.bytes.value > limit))
  {
    match reply
    case Threw => Failure(NotLoaded)
    case NotOk(status) => Failure(if status == 404 then Gone else NotLoaded)
    case Body(declared, bytes) =>
      if declared.Some? && declared.value > limit then Failure(TooLarge)
      else if bytes.None? || bytes.value == 0 then Failure(NotLoaded)
      else if bytes.value > limit then Failure(TooLarge)
      else Loaded(bytes.value)
  }

  function Min(a: int, b: int): int { if a <= b then a else b }

  /** What becomes of one attachment, given the images of its turn so far and the
      bytes spent on newer turns and earlier attachments. */
  function LoadOne(a: Attachment, allowed: bool, shown: nat, spent: nat, limits: Limits, reply: Reply): Verdict {
    if !allowed || a.url == "" || !a.supportedMime then Noted(NotShown)
    else if shown >= limits.perTurn || spent >= limits.total then Noted(LimitReached)
    else
      var loaded := FetchImageBytes(reply, Min(limits.perImage, limits.total - spent));
      if loaded.Failure? then Noted(LoadFailed(loaded.why)) else Shown(loaded.bytes)
  }

  /** One turn, attachment by attachment. */
  function LoadTurn(items: seq<Attachment>, age: nat, allowed: bool, spent: nat, limits: Limits, fetch: Fetch): (r: (TurnImages, nat))
  {
    if items == [] then (TurnImages([], []), spent)
    else
      var last := items[|items| - 1];
      var (turn, used) := LoadTurn(items[..|items| - 1], age, allowed, spent, limits, fetch);
      match LoadOne(last, allowed, |turn.images|, used, limits, fetch(age, |items| - 1, last.url))
      case Noted(reason) => (turn.(notes := turn.notes + [Note(last, reason)]), used)
      case Shown(bytes) => (turn.(images := turn.images + [Image(last.url, bytes)]), used + bytes)
  }

  /** The newest turn is served first; older turns get what is left. */
  function LoadAll(history: seq<Turn>, limits: Limits, fetch: Fetch): (r: (seq<TurnImages>, nat))
    ensures |r.0| == |history|
  {
    if history == [] then ([], 0)
    else
      var (rest, spent) := LoadAll(history[1..], limits, fetch);
      var (turn, used) := LoadTurn(history[0].attachments, |history| - 1, AllowedIn(history[0], limits), spent, limits, fetch);
      ([turn] + rest, used)
  }

  /** The inner loop, over the attachments of one turn. */
  method LoadAttachments(items: seq<Attachment>, age: nat, allowed: bool, before: nat, limits: Limits, fetch: Fetch)
      returns (mine: TurnImages, spent: nat)
    ensures (mine, spent) == LoadTurn(items, age, allowed, before, limits, fetch)
  {
    hide LoadOne;
    mine, spent := TurnImages([], []), before;
    for k := 0 to |items|
      invariant (mine, spent) == LoadTurn(items[..k], age, allowed, before, limits, fetch)
    {
      var attachment := items[k];
      assert items[..k + 1][..k] == items[..k];
      match LoadOne(attachment, allowed, |mine.images|, spent, limits, fetch(age, k, attachment.url)) {
        case Noted(reason) => mine := mine.(notes := mine.notes + [Note(attachment, reason)]);
        case Shown(bytes) =>
          mine := mine.(images := mine.images + [Image(attachment.url, bytes)]);
          spent := spent + bytes;
      }
    }
    assert items[..|items|] == items;
  }

  method LoadHistoryImages(history: seq<Turn>, limits: Limits, fetch: Fetch) returns (turns: seq<TurnImages>)
    ensures turns == LoadAll(history, limits, fetch).0
  {
    hide LoadTurn;
    turns := seq(|history|, _ => TurnImages([], []));
    var spent := 0;
    var index := |history|;
    assert turns[index..] == [] && history[index..] == [];
    while index > 0
      invariant 0 <= index <= |history| == |turns|
      invariant (turns[index..], spent) == LoadAll(history[index..], limits, fetch)
      invariant forall k :: 0 <= k < index ==> turns[k] == TurnImages([], [])
    {
      index := index - 1;
      assert history[index..][1..] == history[index + 1..];
      var turn := history[index];
      var allowed := limits.visionEnabled && turn.imagesAllowed;
      var mine;
      mine, spent := LoadAttachments(turn.attachments, |history| - 1 - index, allowed, spent, limits, fetch);
      turns := turns[index := mine];
      assert turns[index..] == [mine] + turns[index + 1..];
    }
    assert history[0..] == history && turns[0..] == turns;
  }

  // ----- What loading guarantees -----

  /** The attachments, in order, are exactly the shown images and the noted rest. */
  predicate Accounted(items: seq<Attachment>, turn: TurnImages) {
    if items == [] then turn.images == [] && turn.notes == []
    else
      var last, front := items[|items| - 1], items[..|items| - 1];
      || (turn.images != [] && turn.images[|turn.images| - 1].url == last.url
          && Accounted(front, turn.(images := turn.images[..|turn.images| - 1])))
      || (turn.notes != [] && turn.notes[|turn.notes| - 1].attachment == last
          && Accounted(front, turn.(notes := turn.notes[..|turn.notes| - 1])))
  }

  function Bytes(images: seq<Image>): nat {
    if images == [] then 0 else Bytes(images[..|images| - 1]) + images[|images| - 1].bytes
  }

  function AllBytes(turns: seq<TurnImages>): nat {
    if turns == [] then 0 else Bytes(turns[0].images) + AllBytes(turns[1..])
  }

  /** A turn accounts for each attachment once and keeps its limits. */
  ghost predicate Proper(items: seq<Attachment>, turn: TurnImages, limits: Limits) {
    && Accounted(items, turn)
    && (|turn.images| > 0 ==> |turn.images| <= limits.perTurn)
    && forall k :: 0 <= k < |turn.images| ==> 0 < turn.images[k].bytes <= limits.perImage
  }

  lemma {:induction false} TurnIsProper(items: seq<Attachment>, age: nat, allowed: bool, spent: nat, limits: Limits, fetch: Fetch)
    ensures var (turn, used) := LoadTurn(items, age, allowed, spent, limits, fetch);
      && Proper(items, turn, limits)
      && used == spent + Bytes(turn.images)
      && (used > spent ==> used <= limits.total)
      && (!allowed ==> turn.images == [])
  {
    hide LoadOne, Proper, Accounted;
    if items == [] {
      ProperEmpty(limits);
    } else {
      TurnIsProper(items[..|items| - 1], age, allowed, spent, limits, fetch);
      var last := items[|items| - 1];
      var (turn, used) := LoadTurn(items[..|items| - 1], age, allowed, spent, limits, fetch);
      LoadOneBounds(last, allowed, |turn.images|, used, limits, fetch(age, |items| - 1, last.url));
      match LoadOne(last, allowed, |turn.images|, used, limits, fetch(age, |items| - 1, last.url))
      case Noted(reason) => AddNote(items, turn, reason, limits);
      case Shown(bytes) => AddImage(items, turn, bytes, limits);
    }
  }

  /** An attachment is shown exactly when it may be, every limit has room for it,
      and the request delivers it; a limit is blamed exactly when it is reached. */
  lemma LoadOneBounds(a: Attachment, allowed: bool, shown: nat, spent: nat, limits: Limits, reply: Reply)
    ensures var v := LoadOne(a, allowed, shown, spent, limits, reply);
      && (v.Shown? <==>
            && allowed && a.url != "" && a.supportedMime && shown < limits.perTurn && spent < limits.total
            && FetchImageBytes(reply, Min(limits.perImage, limits.total - spent)).Loaded?)
      && (v.Shown? ==> 0 < v.bytes <= limits.perImage && spent + v.bytes <= limits.total)
      && (v.Shown? ==> reply.Body? && reply.bytes == Some(v.bytes))
      && (v == Noted(NotShown) <==> !allowed || a.url == "" || !a.supportedMime)
      && (v == Noted(LimitReached) <==>
            allowed && a.url != "" && a.supportedMime && (shown >= limits.perTurn || spent >= limits.total))
  {
  }

  lemma ProperEmpty(limits: Limits)
    ensures Proper([], TurnImages([], []), limits)
  {
  }

  lemma AddNote(items: seq<Attachment>, turn: TurnImages, reason: Reason, limits: Limits)
    requires items != [] && Proper(items[..|items| - 1], turn, limits)
    ensures Proper(items, turn.(notes := turn.notes + [Note(items[|items| - 1], reason)]), limits)
  {
    var more := turn.(notes := turn.notes + [Note(items[|items| - 1], reason)]);
    assert more.(notes := more.notes[..|more.notes| - 1]) == turn;
  }

  lemma AddImage(items: seq<Attachment>, turn: TurnImages, bytes: nat, limits: Limits)
    requires items != [] && Proper(items[..|items| - 1], turn, limits)
    requires |turn.images| < limits.perTurn && 0 < bytes <= limits.perImage
    ensures var more := turn.(images := turn.images + [Image(items[|items| - 1].url, bytes)]);
      Proper(items, more, limits) && Bytes(more.images) == Bytes(turn.images) + bytes
  {
    var more := turn.(images := turn.images + [Image(items[|items| - 1].url, bytes)]);
    assert more.images[..|more.images| - 1] == turn.images;
    assert more.(images := more.images[..|more.images| - 1]) == turn;
  }

  predicate AllowedIn(turn: Turn, limits: Limits) {
    limits.visionEnabled && turn.imagesAllowed
  }

  /** Every turn is proper and shows images only where they are allowed, and all
      images together stay within the total. */
  lemma {:induction false} LoadingKeepsLimits(history: seq<Turn>, limits: Limits, fetch: Fetch)
    ensures var (turns, spent) := LoadAll(history, limits, fetch);
      && (forall k :: 0 <= k < |history| ==> Proper(history[k].attachments, turns[k], limits))
      && (forall k :: 0 <= k < |history| && turns[k].images != [] ==> limits.visionEnabled && history[k].imagesAllowed)
      && spent == AllBytes(turns) && (spent > 0 ==> spent <= limits.total)
  {
    hide LoadTurn, Proper, Bytes;
    if history != [] {
      LoadingKeepsLimits(history[1..], limits, fetch);
      var (rest, spent) := LoadAll(history[1..], limits, fetch);
      TurnIsProper(history[0].attachments, |history| - 1, AllowedIn(history[0], limits), spent, limits, fetch);
      var turns := LoadAll(history, limits, fetch).0;
      assert turns[1..] == rest;
      forall k | 0 <= k < |history| ensures Proper(history[k].attachments, turns[k], limits) {
        if k > 0 { assert history[k] == history[1..][k - 1] && turns[k] == rest[k - 1]; }
      }
      forall k | 0 <= k < |history| && turns[k].images != [] ensures AllowedIn(history[k], limits) {
        if k > 0 { assert history[k] == history[1..][k - 1] && turns[k] == rest[k - 1]; }
      }
    }
  }

  /** The turn of this age as far as its first `n` attachments, and the bytes spent by then. */
  function LoadedSoFar(history: seq<Turn>, k: nat, n: nat, limits: Limits, fetch: Fetch): (TurnImages, nat)
    requires k < |history| && n <= |history[k].attachments|
  {
    LoadTurn(history[k].attachments[..n], |history| - 1 - k, AllowedIn(history[k], limits),
      LoadAll(history[k + 1..], limits, fetch).1, limits, fetch)
  }

  /** Each attachment is shown exactly when images are allowed there, its address and
      type are fit, the turn and the total have room left, and its own request
      delivers a body that fits; otherwise it is noted. */
  lemma AttachmentShownIff(history: seq<Turn>, k: nat, n: nat, limits: Limits, fetch: Fetch)
    requires k < |history| && n < |history[k].attachments|
    ensures var a := history[k].attachments[n];
      var (before, spent) := LoadedSoFar(history, k, n, limits, fetch);
      var (after, _) := LoadedSoFar(history, k, n + 1, limits, fetch);
      var reply := fetch(|history| - 1 - k, n, a.url);
      var room := Min(limits.perImage, limits.total - spent);
      if limits.visionEnabled && history[k].imagesAllowed && a.url != "" && a.supportedMime
           && |before.images| < limits.perTurn && spent < limits.total && reply.Body? && reply.bytes.Some? && 0 < reply.bytes.value <= room
           && (reply.declared.Some? ==> reply.declared.value <= room)
      then after.images == before.images + [Image(a.url, reply.bytes.value)] && after.notes == before.notes
      else after.images == before.images && exists why :: after.notes == before.notes + [Note(a, why)]
  {
    hide LoadAll;
    var items := history[k].attachments;
    assert items[..n + 1][..n] == items[..n];
  }

  /** The result for a turn is what all its attachments come to. */
  lemma {:induction false} LoadedIs(history: seq<Turn>, k: nat, limits: Limits, fetch: Fetch)
    requires k < |history|
    ensures LoadAll(history, limits, fetch).0[k] == LoadedSoFar(history, k, |history[k].attachments|, limits, fetch).0
  {
    hide LoadTurn;
    if k == 0 {
      assert history[0].attachments[..|history[0].attachments|] == history[0].attachments;
    } else {
      LoadedIs(history[1..], k - 1, limits, fetch);
      assert history[1..][k - 1] == history[k] && history[1..][k - 1 + 1..] == history[k + 1..];
    }
  }

  /** Older turns never change what newer ones get: the newest turns load as if alone. */
  lemma {:induction false} LoadingIgnoresOlderTurns(history: seq<Turn>, n: nat, limits: Limits, fetch: Fetch)
    requires n <= |history|
    ensures LoadAll(history, limits, fetch).0[n..] == LoadAll(history[n..], limits, fetch).0
  {
    var turns := LoadAll(history, limits, fetch).0;
    if n == 0 {
      assert history[0..] == history && turns[0..] == turns;
    } else {
      LoadingIgnoresOlderTurns(history[1..], n - 1, limits, fetch);
      var rest := LoadAll(history[1..], limits, fetch).0;
      assert history[1..][n - 1..] == history[n..];
      assert turns[n..] == rest[n - 1..];
    }
  }

  // ----- Compaction -----

  function ImageBudgetChars(attachments: nat): nat {
    (if attachments <= VISION_MAX_IMAGES_PER_TURN then attachments else VISION_MAX_IMAGES_PER_TURN)
    * VISION_IMAGE_HISTORY_CHAR_COST
  }

  /** Up to three images count, at 2000 characters each. */
  lemma ImageBudget(attachments: nat)
    ensures ImageBudgetChars(0) == 0 && ImageBudgetChars(1) == 2000 && ImageBudgetChars(2) == 4000
    ensures attachments >= 3 ==> ImageBudgetChars(attachments) == 6000
  {
  }

  datatype Entry = Entry(body: string, quotedChars: nat, attachments: nat)

  function EntryChars(e: Entry): nat {
    |e.body| + e.quotedChars + ImageBudgetChars(e.attachments)
  }

  function Chars(entries: seq<Entry>): nat {
    if entries == [] then 0 else EntryChars(entries[0]) + Chars(entries[1..])
  }

  lemma {:induction false} SuffixSmaller(history: seq<Entry>, m: nat, n: nat)
    requires m <= n <= |history|
    ensures Chars(history[n..]) <= Chars(history[m..])
    decreases n - m
  {
    if m < n {
      SuffixSmaller(history, m + 1, n);
      assert history[m..][1..] == history[m + 1..];
    }
  }

  lemma CharsStep(history: seq<Entry>, i: nat)
    requires i < |history|
    ensures Chars(history[i..]) == EntryChars(history[i]) + Chars(history[i + 1..])
    ensures history[i..] == [history[i]] + history[i + 1..]
  {
    assert history[i..][1..] == history[i + 1..];
  }

  lemma CharsEnds(history: seq<Entry>)
    ensures history[0..] == history && history[|history|..] == [] && Chars([]) == 0
  {
  }

  /** Keeps the longest suffix of the history that fits, and says how much was cut. */
  method CompactHistory(history: seq<Entry>, maxChars: int) returns (kept: seq<Entry>, truncated: nat)
    ensures truncated + |kept| == |history| && kept == history[truncated..]
    ensures Chars(kept) <= maxChars || kept == []
    ensures forall m: nat :: m < truncated ==> Chars(history[m..]) > maxChars
  {
    hide EntryChars, Chars;
    var total := 0;
    var i := 0;
    CharsEnds(history);
    while i < |history|
      invariant 0 <= i <= |history| && total + Chars(history[i..]) == Chars(history)
    {
      CharsStep(history, i);
      total := total + EntryChars(history[i]);
      i := i + 1;
    }
    assert total == Chars(history);
    if total <= maxChars { return history, 0; }

    var budget := maxChars;
    kept := [];
    i := |history|;
    while i > 0
      invariant 0 <= i <= |history| && kept == history[i..]
      invariant budget == maxChars - Chars(kept)
      invariant kept == [] || budget >= 0
    {
      CharsStep(history, i - 1);
      var cost := EntryChars(history[i - 1]);
      if cost > budget { break; }
      kept := [history[i - 1]] + kept;
      budget := budget - cost;
      i := i - 1;
    }
    truncated := |history| - |kept|;
    forall m: nat | m < truncated ensures Chars(history[m..]) > maxChars {
      SuffixSmaller(history, m, i - 1);
      CharsStep(history, i - 1);
    }
  }
}
