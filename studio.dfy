/** The studio page's generation cycle: the guard on submitting, the
    `generating` flag around a submission, the batch of renders built from
    the generation response (or the fallback batch when it holds no URL),
    the gallery that takes the batch at its head and keeps 100 renders, the
    history payload posted after a batch, and the gallery loaded from the
    history on start. Network results arrive as parameters. */
module Studio {
  import opened Js
  import Generate
  import History

  /** A model the page offers. */
  datatype Model = Model(id: string, name: string, tags: seq<string>)

  /** `MODELS`. */
  const Models: seq<Model> :=
    [Model("flux-pro", "FLUX.1 Pro", ["quality", "photoreal"]),
     Model("flux-dev", "FLUX.1 Dev", ["balanced", "general"]),
     Model("flux-schnell", "FLUX.1 Schnell", ["fast", "iterative"])]

  /** Every model the page offers is one the generation endpoint routes. */
  lemma ModelsAreRouted(m: Model)
    requires m in Models
    ensures Generate.RouteFor(m.id).Some?
  {
  }

  /** The gallery keeps at most this many renders. */
  const MaxRenders := 100

  /** Renders in the batch shown when the response holds no URL. */
  const FallbackCount := 4

  /** One image of the gallery. */
  datatype Render = Render(id: string, prompt: string, style: Option<string>, seed: int,
                           aspect: string, url: string)

  /** The state a submission captured when it started. */
  datatype Submission = Submission(prompt: string, style: Option<string>, model: Model,
                                   aspect: Generate.Aspect, resolution: int, steps: int,
                                   seed: int, collectionId: Option<string>)
  {
    /** The body posted to the generation endpoint. */
    function Body(): Generate.Body {
      Generate.Body(Some(prompt), style, model.id, Generate.AspectTag(aspect), resolution,
                    steps, seed, Some(4))
    }
  }

  /** A submission of one of the page's models is accepted by the
      generation endpoint: it asks the provider for four images at the
      dimensions of the chosen aspect and resolution. */
  lemma SubmissionAccepted(sub: Submission)
    requires sub.model in Models
    ensures var p := Generate.Prepare(sub.Body());
            && p.Call?
            && p.call.numImages == 4
            && Generate.Size(p.call.width, p.call.height) == Generate.Dims(sub.aspect, sub.resolution)
  {
    ModelsAreRouted(sub.model);
    Generate.ParseAspectTag(sub.aspect);
  }

  /** The generation response as the page reads it: `images` (None when
      nullish) with each entry's `url`, and the optional seed and size. */
  datatype Reply = Reply(images: Option<seq<Option<string>>>, seed: Option<int>,
                         width: Option<int>, height: Option<int>)

  /** The fetch of the generation endpoint: it throws (network or JSON
      failure), answers with a status that is not ok, or gives a reply. */
  datatype GenerateOutcome = FetchFailed | NotOk | Received(reply: Reply)

  /** How a response of the generation endpoint reaches the page. */
  function ClientView(resp: Generate.Response): (r: GenerateOutcome)
    ensures r != FetchFailed
    ensures r.Received? <==> resp.Generated?
    ensures r.Received? ==>
              && r.reply.seed == Some(resp.seed)
              && r.reply.width == Some(resp.width) && r.reply.height == Some(resp.height)
              && r.reply.images.Some? && |r.reply.images.value| == |resp.images|
              && forall k :: 0 <= k < |resp.images| ==> r.reply.images.value[k] == Some(resp.images[k].url)
  {
    match resp
    case Failed(_, _) => NotOk
    case Generated(images, seed, width, height) =>
      Received(Reply(Some(seq(|images|, k requires 0 <= k < |images| => Some(images[k].url))),
                     Some(seed), Some(width), Some(height)))
  }

  /** `urls`: each image's `url`, in order, with missing and empty ones dropped. */
  function EntryUrls(entries: seq<Option<string>>): (urls: seq<string>)
    ensures |urls| <= |entries|
    ensures forall k :: 0 <= k < |urls| ==> urls[k] != ""
  {
    if entries == [] then []
    else
      (if entries[0].Some? && entries[0].value != "" then [entries[0].value] else [])
      + EntryUrls(entries[1..])
  }

  /** Dropping entries works piece by piece. */
  lemma {:induction false} EntryUrlsAppend(a: seq<Option<string>>, b: seq<Option<string>>)
    ensures EntryUrls(a + b) == EntryUrls(a) + EntryUrls(b)
  {
    if a == [] {
      assert a + b == b;
    } else {
      assert (a + b)[1..] == a[1..] + b;
      EntryUrlsAppend(a[1..], b);
    }
  }

  /** A URL survives exactly when it is non-empty and some entry carries it. */
  lemma {:induction false} EntryUrlsMember(entries: seq<Option<string>>, u: string)
    ensures u in EntryUrls(entries) <==>
            u != "" && exists k :: 0 <= k < |entries| && entries[k] == Some(u)
  {
    if entries != [] {
      EntryUrlsMember(entries[1..], u);
      if exists k :: 0 <= k < |entries[1..]| && entries[1..][k] == Some(u) {
        var k :| 0 <= k < |entries[1..]| && entries[1..][k] == Some(u);
        assert entries[k + 1] == Some(u);
      }
      if exists k :: 0 <= k < |entries| && entries[k] == Some(u) {
        var k :| 0 <= k < |entries| && entries[k] == Some(u);
        if k > 0 {
          assert entries[1..][k - 1] == Some(u);
        }
      }
    }
  }

  function ReplyUrls(reply: Reply): (urls: seq<string>)
    ensures forall k :: 0 <= k < |urls| ==> urls[k] != ""
  {
    EntryUrls(reply.images.GetOr([]))
  }

  /** Entries that all carry a non-empty URL come through one for one. */
  lemma {:induction false} EntryUrlsAllPresent(entries: seq<Option<string>>)
    requires forall k :: 0 <= k < |entries| ==> entries[k].Some? && entries[k].value != ""
    ensures EntryUrls(entries) == seq(|entries|, k requires 0 <= k < |entries| => entries[k].value)
  {
    if entries != [] {
      EntryUrlsAllPresent(entries[1..]);
    }
  }

  /** The URLs of a generation response whose URLs are all non-empty
      reach the page unchanged and in order. */
  lemma UrlsArrive(resp: Generate.Response)
    requires resp.Generated?
    requires forall k :: 0 <= k < |resp.images| ==> resp.images[k].url != ""
    ensures var urls := ReplyUrls(ClientView(resp).reply);
            |urls| == |resp.images| && forall k :: 0 <= k < |urls| ==> urls[k] == resp.images[k].url
  {
    EntryUrlsAllPresent(ClientView(resp).reply.images.value);
  }

  /** So the URLs of every successful answer of the generation endpoint
      reach the page unchanged and in order. */
  lemma ServerUrlsArrive(body: Option<Generate.Body>, run: Generate.ProviderCall -> Generate.RunOutcome)
    requires Generate.Post(body, run).Generated?
    ensures var resp := Generate.Post(body, run);
            var urls := ReplyUrls(ClientView(resp).reply);
            |urls| == |resp.images| && forall k :: 0 <= k < |urls| ==> urls[k] == resp.images[k].url
  {
    var resp := Generate.Post(body, run);
    UrlsArrive(resp);
  }

  /** `mockImage`: the gradient shown in place of an image. `| 0` leaves
      a remainder of 360 as it is. */
  function MockImage(seed: int): string {
    var h1 := Remainder(seed, 360);
    var h2 := Remainder(seed * 3, 360);
    "linear-gradient(135deg, hsl(" + IntToString(h1) + " 75% 52%), hsl("
      + IntToString(h2) + " 75% 42%))"
  }

  /** A seed and the same seed a full turn of the hue wheel later give the
      same gradient. */
  lemma MockImagePeriodic(seed: int)
    requires seed >= 0
    ensures MockImage(seed + 360) == MockImage(seed)
  {
    assert Remainder(seed + 360, 360) == Remainder(seed, 360);
    assert Remainder((seed + 360) * 3, 360) == Remainder(seed * 3, 360);
  }

  /** `${Date.now()}-${i}`. */
  function RenderId(now: int, i: int): string {
    IntToString(now) + "-" + IntToString(i)
  }

  /** The renders of one batch have distinct ids. */
  lemma RenderIdsDistinct(now: int, i: int, j: int)
    requires 0 <= i < j
    ensures RenderId(now, i) != RenderId(now, j)
  {
    var head := IntToString(now) + "-";
    if RenderId(now, i) == RenderId(now, j) {
      assert RenderId(now, i)[|head|..] == IntToString(i);
      assert RenderId(now, j)[|head|..] == IntToString(j);
      IntToStringInjective(i, j);
      assert false;
    }
  }

  /** `batch`: one render per URL, seeds counting up from `base`. */
  function UrlBatch(sub: Submission, urls: seq<string>, base: int, now: int): (batch: seq<Render>)
    ensures |batch| == |urls|
    ensures forall k :: 0 <= k < |batch| ==>
              batch[k] == Render(RenderId(now, k), sub.prompt, sub.style, base + k,
                                 Generate.AspectTag(sub.aspect), urls[k])
  {
    seq(|urls|, i requires 0 <= i < |urls| =>
      Render(RenderId(now, i), sub.prompt, sub.style, base + i, Generate.AspectTag(sub.aspect), urls[i]))
  }

  /** The fallback: four gradient renders, seeds counting up from the
      requested seed. */
  function FallbackBatch(sub: Submission, now: int): (batch: seq<Render>)
    ensures |batch| == FallbackCount
    ensures forall k :: 0 <= k < |batch| ==>
              batch[k] == Render(RenderId(now, k), sub.prompt, sub.style, sub.seed + k,
                                 Generate.AspectTag(sub.aspect), MockImage(sub.seed + k))
  {
    seq(FallbackCount, i requires 0 <= i < FallbackCount =>
      Render(RenderId(now, i), sub.prompt, sub.style, sub.seed + i, Generate.AspectTag(sub.aspect),
             MockImage(sub.seed + i)))
  }

  /** `finalBatch`: the URL batch, seeded from the response's seed (or the
      requested one when that is nullish), or the fallback when there is
      no URL. Every render carries the submitted prompt, style and aspect. */
  function FinalBatch(sub: Submission, reply: Reply, now: int): (batch: seq<Render>)
    ensures var urls := ReplyUrls(reply);
            && |batch| == (if urls == [] then FallbackCount else |urls|)
            && forall k :: 0 <= k < |batch| ==>
                 && batch[k].prompt == sub.prompt && batch[k].style == sub.style
                 && batch[k].aspect == Generate.AspectTag(sub.aspect)
                 && batch[k].id == RenderId(now, k)
                 && (urls != [] ==> batch[k].url == urls[k] && batch[k].seed == reply.seed.GetOr(sub.seed) + k)
                 && (urls == [] ==> batch[k].url == MockImage(sub.seed + k) && batch[k].seed == sub.seed + k)
  {
    var urls := ReplyUrls(reply);
    if |urls| > 0 then UrlBatch(sub, urls, reply.seed.GetOr(sub.seed), now)
    else FallbackBatch(sub, now)
  }

  /** The fallback ignores the response's seed: it counts from the
      requested seed whatever the response says. */
  lemma FallbackIgnoresReplySeed(sub: Submission, reply: Reply, now: int, other: Option<int>)
    requires ReplyUrls(reply) == []
    ensures FinalBatch(sub, reply, now) == FinalBatch(sub, reply.(seed := other), now)
  {
  }

  /** `[...finalBatch, ...prev].slice(0, 100)`: the batch at the head, then
      as many earlier renders as fit, in their order. */
  function PrependCapped(batch: seq<Render>, prev: seq<Render>): (r: seq<Render>)
    ensures |r| == Min(MaxRenders, |batch| + |prev|)
    ensures |batch| <= MaxRenders ==> r[..|batch|] == batch && r[|batch|..] == prev[..|r| - |batch|]
    ensures |batch| > MaxRenders ==> r == batch[..MaxRenders]
  {
    var all := batch + prev;
    var r := all[..Min(MaxRenders, |all|)];
    assert |batch| <= MaxRenders ==> r[|batch|..] == prev[..|r| - |batch|];
    r
  }

  /** The body posted to the history after a batch: one item per render of
      the batch, in order, with the submitted model and the response's size
      (0 when it has none). */
  function HistoryPayload(sub: Submission, reply: Reply, batch: seq<Render>): (body: History.PostBody)
    ensures body.collectionId == sub.collectionId
    ensures body.items.Some? && |body.items.value| == |batch|
    ensures forall k :: 0 <= k < |batch| ==>
              var it := body.items.value[k];
              && it.prompt == batch[k].prompt && it.style == batch[k].style
              && it.aspect == batch[k].aspect && it.seed == batch[k].seed
              && it.imageUrl == batch[k].url && it.modelId == sub.model.id
              && it.width == reply.width.GetOr(0) && it.height == reply.height.GetOr(0)
              && it.createdAt.None?
  {
    History.PostBody(sub.collectionId, Some(seq(|batch|, k requires 0 <= k < |batch| =>
      History.PostItem(batch[k].prompt, batch[k].style, sub.model.id, batch[k].aspect, batch[k].seed,
                       reply.width.GetOr(0), reply.height.GetOr(0), batch[k].url, None))))
  }

  /** A truthy collection id. */
  predicate CollectionSet(collectionId: Option<string>) {
    collectionId.Some? && collectionId.value != ""
  }

  /** What the page posts after a batch is a payload the history endpoint
      accepts: the collection id is set and the batch is never empty. */
  lemma PayloadAccepted(sub: Submission, reply: Reply, now: int)
    requires CollectionSet(sub.collectionId)
    ensures History.ValidPayload(HistoryPayload(sub, reply, FinalBatch(sub, reply, now)))
  {
  }

  /** The render for a history item: the item's `imageUrl` is the render's url. */
  function FromItem(it: History.Item): Render {
    Render(it.id, it.prompt, it.style, it.seed, it.aspect, it.imageUrl)
  }

  /** A render posted to the history, stored without a mirrored copy and
      read back, is the same render under the id the history gave it. */
  lemma RenderSurvivesHistory(sub: Submission, reply: Reply, batch: seq<Render>, k: nat,
                              id: string, now: int, mirror: string -> History.MirrorOutcome)
    requires CollectionSet(sub.collectionId) && k < |batch|
    ensures var item := HistoryPayload(sub, reply, batch).items.value[k];
            var row := History.BuildRow(item, id, sub.collectionId.value, now,
                                        History.MirroredUrl(item.imageUrl, false, mirror));
            FromItem(History.ToItem(row)) == batch[k].(id := id)
  {
  }

  /** The history fetch on load: it throws, answers with a status that is
      not ok, or gives the `items` member (None when nullish). */
  datatype HistoryOutcome = HistoryFailed | HistoryNotOk | HistoryReceived(items: Option<seq<History.Item>>)

  /** The gallery and the history post once a response is in: on a reply
      the final batch goes to the head of the gallery (`prev`) and, with a
      collection id, its payload is posted; on a failure the gallery stays
      and nothing is posted. */
  predicate AfterResponse(sub: Submission, outcome: GenerateOutcome, now: int, prev: seq<Render>,
                          renders: seq<Render>, post: Option<History.PostBody>)
  {
    if outcome.Received? then
      var batch := FinalBatch(sub, outcome.reply, now);
      && renders == PrependCapped(batch, prev)
      && post == if CollectionSet(sub.collectionId)
                 then Some(HistoryPayload(sub, outcome.reply, batch)) else None
    else renders == prev && post == None
  }

  /** The page's state. */
  class Studio {
    var prompt: string
    var style: Option<string>
    var model: Model
    var aspect: Generate.Aspect
    var resolution: int
    var steps: int
    var seed: int
    var collectionId: Option<string>
    var generating: bool
    var renders: seq<Render>

    /** The page on first render: an empty prompt, the first model, 1:1 at
        768 px, 30 steps, a random seed and the collection id read from
        (or written to) the page URL. */
    constructor (initialSeed: int, collection: Option<string>)
      ensures prompt == "" && style == None && model == Models[0]
      ensures aspect == Generate.Square && resolution == 768 && steps == 30 && seed == initialSeed
      ensures collectionId == collection && !generating && renders == []
    {
      prompt, style, model := "", None, Models[0];
      aspect, resolution, steps, seed := Generate.Square, 768, 30, initialSeed;
      collectionId, generating, renders := collection, false, [];
    }

    /** `canGenerate`. */
    predicate CanGenerate()
      reads this
    {
      Trim(prompt) != [] && !generating
    }

    /** A generation can start exactly when none is running and the prompt
        has a character that is not white space. */
    lemma CanGenerateWhen()
      ensures CanGenerate() <==> !generating && exists i :: 0 <= i < |prompt| && !IsSpace(prompt[i])
    {
      TrimEmpty(prompt);
    }

    /** The start of `handleGenerate`, up to the request: with `canGenerate`
        false nothing happens; otherwise `generating` is raised and the
        state the rest of the cycle uses is captured. */
    method Submit() returns (sub: Option<Submission>)
      modifies this`generating
      ensures sub.Some? <==> old(CanGenerate())
      ensures sub.None? ==> generating == old(generating)
      ensures sub.Some? ==>
                && generating
                && sub.value == Submission(Trim(prompt), style, model, aspect, resolution, steps,
                                           seed, collectionId)
    {
      if !CanGenerate() {
        return None;
      }
      generating := true;
      sub := Some(Submission(Trim(prompt), style, model, aspect, resolution, steps, seed, collectionId));
    }

    /** The rest of `handleGenerate`, once the response is in: on a reply
        the final batch goes to the head of the gallery and, with a
        collection id, its payload is posted to the history; on a failure
        the gallery stays and nothing is posted. `generating` is lowered
        either way. `post` is the history body sent, if any. */
    method Complete(sub: Submission, outcome: GenerateOutcome, now: int)
      returns (post: Option<History.PostBody>)
      modifies this`generating, this`renders
      ensures !generating
      ensures AfterResponse(sub, outcome, now, old(renders), renders, post)
    {
      post := None;
      if outcome.Received? {
        var batch := FinalBatch(sub, outcome.reply, now);
        renders := PrependCapped(batch, renders);
        if CollectionSet(sub.collectionId) {
          post := Some(HistoryPayload(sub, outcome.reply, batch));
        }
      }
      generating := false;
    }

    /** `handleGenerate` as one step, with the generation fetch's outcome
        given: nothing changes when `canGenerate` is false; otherwise the
        gallery and the post are those of Complete, and `generating` ends
        false. */
    method HandleGenerate(outcome: GenerateOutcome, now: int) returns (post: Option<History.PostBody>)
      modifies this`generating, this`renders
      ensures !old(CanGenerate()) ==> unchanged(this) && post == None
      ensures old(CanGenerate()) ==>
                && !generating
                && AfterResponse(Submission(Trim(prompt), style, model, aspect, resolution, steps,
                                            seed, collectionId),
                                 outcome, now, old(renders), renders, post)
    {
      var sub := Submit();
      if sub.None? {
        return None;
      }
      post := Complete(sub.value, outcome, now);
    }

    /** The history effect: with a collection id and a reply, the gallery
        becomes one render per item, in order; otherwise it stays. */
    method LoadHistory(outcome: HistoryOutcome)
      modifies this`renders
      ensures CollectionSet(collectionId) && outcome.HistoryReceived? ==>
                var items := outcome.items.GetOr([]);
                && |renders| == |items|
                && forall k :: 0 <= k < |items| ==> renders[k] == FromItem(items[k])
      ensures !(CollectionSet(collectionId) && outcome.HistoryReceived?) ==> renders == old(renders)
    {
      if !CollectionSet(collectionId) {
        return;
      }
      if outcome.HistoryReceived? {
        var items := outcome.items.GetOr([]);
        renders := seq(|items|, k requires 0 <= k < |items| => FromItem(items[k]));
      }
    }
  }
}
