/** The generation endpoint: it resolves pixel dimensions from an aspect tag
    and a longer-side resolution, routes a model id to the provider, builds
    the provider prompt, and flattens the provider's result into one ordered
    list of image URLs. The provider call itself is a function parameter. */
module Generate {
  import opened Js

  // ---------------------------------------------------------------------
  // Dimension resolver
  // ---------------------------------------------------------------------

  datatype Aspect = Square | Portrait | Landscape | Widescreen

  /** The tag of an aspect as the request carries it. */
  function AspectTag(a: Aspect): string {
    match a
    case Square => "1:1"
    case Portrait => "3:4"
    case Landscape => "4:3"
    case Widescreen => "16:9"
  }

  /** The entry of the ratio table for a tag; no entry for any other text. */
  function ParseAspect(tag: string): (r: Option<Aspect>)
    ensures r.Some? ==> AspectTag(r.value) == tag
  {
    if tag == "1:1" then Some(Square)
    else if tag == "3:4" then Some(Portrait)
    else if tag == "4:3" then Some(Landscape)
    else if tag == "16:9" then Some(Widescreen)
    else None
  }

  /** Every tag the client can send is found in the table, and gives back
      the aspect it came from. */
  lemma ParseAspectTag(a: Aspect)
    ensures ParseAspect(AspectTag(a)) == Some(a)
  {
  }

  datatype Ratio = Ratio(w: nat, h: nat)

  function RatioOf(a: Aspect): (r: Ratio)
    ensures r.w > 0 && r.h > 0
  {
    match a
    case Square => Ratio(1, 1)
    case Portrait => Ratio(3, 4)
    case Landscape => Ratio(4, 3)
    case Widescreen => Ratio(16, 9)
  }

  datatype Size = Size(width: int, height: int)

  /** `round8`: the multiple of 8 nearest to n (halves up), but never below 64. */
  function Round8(n: int): (r: int)
    ensures r >= 64 && r % 8 == 0
    ensures r > 64 ==> r - 4 <= n < r + 4
    ensures r == 64 ==> n < 68
  {
    Max(64, RoundDiv(n, 8) * 8)
  }

  /** `dimsFromAspect`: the resolution is the longer side; the shorter side
      is the resolution scaled by the ratio and rounded; both sides are then
      snapped by Round8. */
  function Dims(a: Aspect, resolution: int): (s: Size)
    ensures s.width % 8 == 0 && s.height % 8 == 0
    ensures s.width >= 64 && s.height >= 64
  {
    var Ratio(wR, hR) := RatioOf(a);
    var longIsWidth := wR >= hR;
    var long := resolution;
    var short := RoundDiv(resolution * Min(wR, hR), Max(wR, hR));
    var width := if longIsWidth then long else short;
    var height := if longIsWidth then short else long;
    Size(Round8(width), Round8(height))
  }

  /** A positive factor keeps the sign of a product's other factor. */
  lemma SignOfProduct(M: int, x: int)
    requires M > 0 && M * x <= 0
    ensures x <= 0
  {
    assert x >= 1 ==> M * x >= M * 1;
  }

  /** The scaled short side never exceeds the long side once the
      resolution is not negative. */
  lemma ShortSideAtMostLong(resolution: int, m: nat, M: nat)
    requires 0 < m <= M && resolution >= 0
    ensures RoundDiv(resolution * m, M) <= resolution
  {
    var r := RoundDiv(resolution * m, M);
    assert resolution * m <= resolution * M;
    assert M * (2 * r - 2 * resolution - 1) <= 0;
    SignOfProduct(M, 2 * r - 2 * resolution - 1);
  }

  /** A negative resolution scales to a short side of at most 0. */
  lemma ShortSideOfNegative(resolution: int, m: nat, M: nat)
    requires 0 < m <= M && resolution < 0
    ensures RoundDiv(resolution * m, M) <= 0
  {
    var r := RoundDiv(resolution * m, M);
    assert resolution * m < 0;
    assert M * (2 * r - 1) <= 0;
    SignOfProduct(M, 2 * r - 1);
  }

  /** Round8 keeps the order of its arguments. */
  lemma Round8Monotone(a: int, b: int)
    requires a <= b
    ensures Round8(a) <= Round8(b)
  {
    var ra, rb := RoundDiv(a, 8), RoundDiv(b, 8);
    assert 16 * ra - 8 <= 2 * a && 2 * b < 16 * rb + 8;
    assert ra <= rb;
  }

  /** A square image has equal sides, whatever the resolution. */
  lemma SquareIsSquare(resolution: int)
    ensures Dims(Square, resolution).width == Dims(Square, resolution).height
  {
    assert RoundDiv(resolution * 1, 1) == resolution;
  }

  /** "3:4" is "4:3" turned on its side. */
  lemma PortraitMirrorsLandscape(resolution: int)
    ensures Dims(Portrait, resolution).width == Dims(Landscape, resolution).height
    ensures Dims(Portrait, resolution).height == Dims(Landscape, resolution).width
  {
  }

  /** The long side is the resolution's side: width for 1:1, 4:3 and 16:9,
      height for 3:4. */
  lemma LongSideDominates(a: Aspect, resolution: int)
    ensures a != Portrait ==> Dims(a, resolution).width >= Dims(a, resolution).height
    ensures a == Portrait ==> Dims(a, resolution).height >= Dims(a, resolution).width
  {
    var Ratio(wR, hR) := RatioOf(a);
    var m, M := Min(wR, hR), Max(wR, hR);
    var short := RoundDiv(resolution * m, M);
    if resolution >= 0 {
      ShortSideAtMostLong(resolution, m, M);
      Round8Monotone(short, resolution);
    } else {
      ShortSideOfNegative(resolution, m, M);
      assert Round8(short) == 64 && Round8(resolution) == 64;
    }
  }

  /** A resolution that is already a multiple of 8 and at least 64 is the
      long side exactly. */
  lemma ExactLongSide(a: Aspect, resolution: int)
    requires resolution % 8 == 0 && resolution >= 64
    ensures a != Portrait ==> Dims(a, resolution).width == resolution
    ensures a == Portrait ==> Dims(a, resolution).height == resolution
  {
    var r := RoundDiv(resolution, 8);
    assert 16 * r - 8 <= 2 * resolution < 16 * r + 8;
    assert r * 8 == resolution;
  }

  /** 16:9 at 1024 is 1024 by 576. */
  lemma WidescreenAt1024()
    ensures Dims(Widescreen, 1024) == Size(1024, 576)
  {
    assert RoundDiv(1024 * 9, 16) == 576;
    assert RoundDiv(1024, 8) == 128;
    assert RoundDiv(576, 8) == 72;
  }

  // ---------------------------------------------------------------------
  // Model routing
  // ---------------------------------------------------------------------

  /** `MODEL_ROUTE`: the provider route of each supported model id. */
  const ModelRoutes: map<string, string> :=
    map["flux-pro" := "fal-ai/flux-pro",
        "flux-dev" := "fal-ai/flux/dev",
        "flux-schnell" := "fal-ai/flux-schnell"]

  /** The route of a model id, looked up among the table's own entries only. */
  function RouteFor(modelId: string): (r: Option<string>)
    ensures r.Some? <==> modelId in {"flux-pro", "flux-dev", "flux-schnell"}
    ensures modelId == "flux-pro" ==> r == Some("fal-ai/flux-pro")
    ensures modelId == "flux-dev" ==> r == Some("fal-ai/flux/dev")
    ensures modelId == "flux-schnell" ==> r == Some("fal-ai/flux-schnell")
  {
    if modelId in ModelRoutes then Some(ModelRoutes[modelId]) else None
  }

  /** The members every object literal inherits from `Object.prototype`. */
  const InheritedNames: set<string> :=
    {"constructor", "hasOwnProperty", "isPrototypeOf", "propertyIsEnumerable",
     "toLocaleString", "toString", "valueOf", "__proto__", "__defineGetter__",
     "__defineSetter__", "__lookupGetter__", "__lookupSetter__"}

  /** What indexing an object literal with a key yields. */
  datatype Property = Missing | OwnRoute(route: string) | InheritedMember(name: string)

  /** `MODEL_ROUTE[modelId]` as written: indexing the object literal also
      reaches the members it inherits. */
  function LookupAsWritten(modelId: string): (p: Property)
    ensures p.OwnRoute? <==> RouteFor(modelId).Some?
    ensures p.OwnRoute? ==> RouteFor(modelId) == Some(p.route)
    ensures p.InheritedMember? <==> modelId in InheritedNames
  {
    if modelId in ModelRoutes then OwnRoute(ModelRoutes[modelId])
    else if modelId in InheritedNames then InheritedMember(modelId)
    else Missing
  }

  /** `if (!route)` as written: an own route is a non-empty string and an
      inherited member is a function or an object, so only a missing
      property is falsy. */
  predicate GuardRejectsAsWritten(modelId: string)
    ensures GuardRejectsAsWritten(modelId) <==> RouteFor(modelId).None? && modelId !in InheritedNames
  {
    LookupAsWritten(modelId).Missing?
  }

  /** The guard as written lets through every inherited member name: none
      of them is a supported model, and each reaches the provider call. */
  lemma InheritedNameBypassesGuard(modelId: string)
    requires modelId in InheritedNames
    ensures RouteFor(modelId).None?
    ensures !GuardRejectsAsWritten(modelId)
  {
  }

  /** For example "toString". */
  lemma ToStringBypassesGuard()
    ensures RouteFor("toString").None? && !GuardRejectsAsWritten("toString")
  {
    InheritedNameBypassesGuard("toString");
  }

  // ---------------------------------------------------------------------
  // Provider prompt
  // ---------------------------------------------------------------------

  /** `styleSuffix`: a truthy style adds ", " and the style in lower case. */
  function StyleSuffix(style: Option<string>): (r: string)
    ensures r == [] <==> style.None? || style.value == []
    ensures r != [] ==> |r| >= 2 && r[..2] == ", " && r[2..] == ToLower(style.value)
  {
    if style.Some? && style.value != "" then ", " + ToLower(style.value) else ""
  }

  /** `fullPrompt`: the trimmed prompt (empty when absent), the style
      suffix, and the whole trimmed again. */
  function ProviderPrompt(prompt: Option<string>, style: Option<string>): (r: string)
    ensures r == [] || (!IsSpace(r[0]) && !IsSpace(r[|r| - 1]))
    ensures |r| <= |prompt.GetOr([])| + |StyleSuffix(style)|
  {
    Trim(Trim(prompt.GetOr("")) + StyleSuffix(style))
  }

  /** Without a style (absent or empty) the provider prompt is the trimmed
      prompt. */
  lemma PromptWithoutStyle(prompt: Option<string>, style: Option<string>)
    requires style == None || style == Some("")
    ensures ProviderPrompt(prompt, style) == Trim(prompt.GetOr(""))
  {
    var tp := Trim(prompt.GetOr(""));
    assert tp + StyleSuffix(style) == tp;
    TrimIdempotent(prompt.GetOr(""));
  }

  /** Trimming the end of "…, " drops only the space. */
  lemma TrimEndCommaSpace(tp: string)
    ensures TrimEnd(tp + ", ") == tp + ","
  {
    var y := tp + ", ";
    assert y[..|y| - 1] == tp + ",";
    assert IsSpace(y[|y| - 1]);
    assert !IsSpace((tp + ",")[|tp|]);
  }

  /** With a style, the provider prompt is the trimmed prompt, a comma, and
      the lower-cased style without its trailing white space; when that
      style is all white space, only the comma remains. */
  lemma PromptWithStyle(prompt: Option<string>, s: string)
    requires s != ""
    ensures var tp := Trim(prompt.GetOr(""));
            var ls := TrimEnd(ToLower(s));
            ProviderPrompt(prompt, Some(s)) == if ls == "" then tp + "," else tp + ", " + ls
  {
    var tp := Trim(prompt.GetOr(""));
    var l := ToLower(s);
    var x := (tp + ", ") + l;
    assert StyleSuffix(Some(s)) == ", " + l;
    assert tp + (", " + l) == x;
    assert ProviderPrompt(prompt, Some(s)) == Trim(x);
    assert x[0] == if tp == [] then ',' else tp[0];
    TrimStartKeeps(x);
    assert Trim(x) == TrimEnd(x);
    TrimEndAppend(tp + ", ", l);
    TrimEndCommaSpace(tp);
  }

  // ---------------------------------------------------------------------
  // Provider result
  // ---------------------------------------------------------------------

  /** One image entry of the provider's result: a URL string, an object
      that may carry a `url`, or anything else (null, undefined, a number). */
  datatype ImageRef = UrlText(text: string) | UrlObject(url: Option<string>) | NoImage

  /** `typeof img === "string" ? img : img?.url`. */
  function RefUrl(img: ImageRef): Option<string> {
    match img
    case UrlText(t) => Some(t)
    case UrlObject(u) => u
    case NoImage => None
  }

  /** The provider's result: `images` when it is an array (None otherwise),
      the single `image`, and the seed it reports. */
  datatype RunResult = RunResult(images: Option<seq<ImageRef>>, image: ImageRef, seed: Option<int>)

  /** `images.map(...).filter(Boolean)`: the URL of each entry, in order,
      empty and missing ones dropped. */
  function CollectUrls(images: seq<ImageRef>): (urls: seq<string>)
    ensures |urls| <= |images|
    ensures forall k :: 0 <= k < |urls| ==> urls[k] != ""
  {
    if images == [] then []
    else
      var head := RefUrl(images[0]);
      (if head.Some? && head.value != "" then [head.value] else []) + CollectUrls(images[1..])
  }

  /** Collecting keeps the order of the entries: the URLs of a
      concatenation are the URLs of its parts, concatenated. */
  lemma {:induction false} CollectUrlsAppend(a: seq<ImageRef>, b: seq<ImageRef>)
    ensures CollectUrls(a + b) == CollectUrls(a) + CollectUrls(b)
  {
    if a == [] {
      assert a + b == b;
    } else {
      assert (a + b)[1..] == a[1..] + b;
      CollectUrlsAppend(a[1..], b);
    }
  }

  /** A URL is collected exactly when it is non-empty and some entry carries it. */
  lemma {:induction false} CollectUrlsMember(images: seq<ImageRef>, u: string)
    ensures u in CollectUrls(images) <==>
            u != "" && exists k :: 0 <= k < |images| && RefUrl(images[k]) == Some(u)
  {
    if images != [] {
      CollectUrlsMember(images[1..], u);
      if exists k :: 0 <= k < |images[1..]| && RefUrl(images[1..][k]) == Some(u) {
        var k :| 0 <= k < |images[1..]| && RefUrl(images[1..][k]) == Some(u);
        assert RefUrl(images[k + 1]) == Some(u);
      }
      if exists k :: 0 <= k < |images| && RefUrl(images[k]) == Some(u) {
        var k :| 0 <= k < |images| && RefUrl(images[k]) == Some(u);
        if k > 0 {
          assert RefUrl(images[1..][k - 1]) == Some(u);
        }
      }
    }
  }

  /** An array of non-empty URL strings comes back unchanged. */
  lemma {:induction false} CollectUrlStrings(images: seq<ImageRef>)
    requires forall k :: 0 <= k < |images| ==> images[k].UrlText? && images[k].text != ""
    ensures CollectUrls(images) == seq(|images|, k requires 0 <= k < |images| => images[k].text)
  {
    if images != [] {
      CollectUrlStrings(images[1..]);
    }
  }

  /** The normalised URL list: the collected `images` when that is an
      array (even an empty one), otherwise the single `image` if its URL is
      truthy. */
  function ResultUrls(res: RunResult): (urls: seq<string>)
    ensures forall k :: 0 <= k < |urls| ==> urls[k] != ""
    ensures res.images.None? ==> |urls| <= 1
  {
    if res.images.Some? then CollectUrls(res.images.value)
    else
      var imageTruthy := match res.image
        case UrlText(t) => t != ""
        case UrlObject(_) => true
        case NoImage => false;
      var u := RefUrl(res.image);
      if imageTruthy && u.Some? && u.value != "" then [u.value] else []
  }

  /** When `images` is an array, `image` plays no part. */
  lemma ImageIgnoredBesideImages(res: RunResult, other: ImageRef)
    requires res.images.Some?
    ensures ResultUrls(res) == ResultUrls(res.(image := other))
  {
  }

  /** Without an `images` array, the single `image` gives its URL when that
      is non-empty and nothing otherwise. */
  lemma SingleImageUrl(res: RunResult)
    requires res.images.None?
    ensures var u := RefUrl(res.image);
            ResultUrls(res) == if u.Some? && u.value != "" then [u.value] else []
  {
  }

  // ---------------------------------------------------------------------
  // The endpoint
  // ---------------------------------------------------------------------

  /** The request body, parsed. Absent optional fields are None. */
  datatype Body = Body(prompt: Option<string>, style: Option<string>, modelId: string,
                       aspect: string, resolution: int, steps: int, seed: int,
                       numImages: Option<int>)

  /** The input handed to the provider. */
  datatype ProviderCall = ProviderCall(route: string, prompt: string, seed: int, steps: int,
                                       width: int, height: int, numImages: int,
                                       safetyChecker: bool)

  /** The provider either throws or returns a result. */
  datatype RunOutcome = Threw | Returned(result: RunResult)

  datatype ImageData = ImageData(url: string)

  datatype Response =
    | Generated(images: seq<ImageData>, seed: int, width: int, height: int)
    | Failed(status: int, error: string)
  {
    function Status(): int {
      if Generated? then 200 else status
    }
  }

  /** Everything before the provider call: either the call to make or the
      response to give without making one. */
  datatype Prepared = Call(call: ProviderCall) | Reject(response: Response)

  const GenerationFailed := Failed(500, "Generation failed")

  function Prepare(body: Body): (p: Prepared)
    ensures p.Reject? <==> RouteFor(body.modelId).None? || ParseAspect(body.aspect).None?
    ensures RouteFor(body.modelId).None? ==>
              p == Reject(Failed(400, "Unsupported modelId: " + body.modelId))
    ensures p.Call? ==>
              && p.call.route == ModelRoutes[body.modelId]
              && p.call.prompt == ProviderPrompt(body.prompt, body.style)
              && Size(p.call.width, p.call.height) == Dims(ParseAspect(body.aspect).value, body.resolution)
              && p.call.seed == body.seed && p.call.steps == body.steps
              && p.call.numImages == body.numImages.GetOr(4)
              && p.call.safetyChecker
  {
    match RouteFor(body.modelId)
    case None => Reject(Failed(400, "Unsupported modelId: " + body.modelId))
    case Some(route) =>
      match ParseAspect(body.aspect)
      // an unknown tag makes the destructuring of the table entry throw
      case None => Reject(GenerationFailed)
      case Some(a) =>
        var size := Dims(a, body.resolution);
        Call(ProviderCall(route, ProviderPrompt(body.prompt, body.style), body.seed, body.steps,
                          size.width, size.height, body.numImages.GetOr(4), true))
  }

  /** The response to a provider outcome for a call prepared from `body`. */
  function Respond(body: Body, call: ProviderCall, outcome: RunOutcome): (resp: Response)
    ensures resp.Status() in {200, 500}
    ensures resp.Generated? <==> outcome.Returned?
    ensures resp.Generated? ==>
              && resp.width == call.width && resp.height == call.height
              && |resp.images| == |ResultUrls(outcome.result)|
              && (forall k :: 0 <= k < |resp.images| ==> resp.images[k].url == ResultUrls(outcome.result)[k])
              && resp.seed == (if outcome.result.seed.Some? then outcome.result.seed.value else body.seed)
  {
    match outcome
    case Threw => GenerationFailed
    case Returned(res) =>
      var urls := ResultUrls(res);
      Generated(seq(|urls|, k requires 0 <= k < |urls| => ImageData(urls[k])),
                res.seed.GetOr(body.seed), call.width, call.height)
  }

  /** The `POST` handler. `body` is None when the request's JSON cannot be
      read; `run` is the provider. */
  function Post(body: Option<Body>, run: ProviderCall -> RunOutcome): (resp: Response)
    ensures resp.Status() in {200, 400, 500}
    ensures resp.Status() == 400 <==> body.Some? && RouteFor(body.value.modelId).None?
    ensures resp.Generated? ==>
              && resp.width % 8 == 0 && resp.height % 8 == 0
              && resp.width >= 64 && resp.height >= 64
              && forall k :: 0 <= k < |resp.images| ==> resp.images[k].url != ""
  {
    if body.None? then GenerationFailed
    else
      match Prepare(body.value)
      case Reject(r) => r
      case Call(call) => Respond(body.value, call, run(call))
  }

  /** An unsupported model id is answered with 400 before the provider is
      consulted: the response is the same whatever the provider would do. */
  lemma UnknownModelRejected(body: Body, run1: ProviderCall -> RunOutcome,
                             run2: ProviderCall -> RunOutcome)
    requires RouteFor(body.modelId).None?
    ensures Post(Some(body), run1) == Post(Some(body), run2)
    ensures Post(Some(body), run1).Status() == 400
  {
  }

  /** A successful response lists the normalised URLs in order, echoes the
      provider's seed unless that is nullish (so 0 is kept) and otherwise
      the requested one, and echoes the computed dimensions. */
  lemma SuccessEchoes(body: Body, run: ProviderCall -> RunOutcome, a: Aspect)
    requires RouteFor(body.modelId).Some? && ParseAspect(body.aspect) == Some(a)
    requires run(Prepare(body).call).Returned?
    ensures var res := run(Prepare(body).call).result;
            var resp := Post(Some(body), run);
            && resp.Generated?
            && |resp.images| == |ResultUrls(res)|
            && (forall k :: 0 <= k < |resp.images| ==> resp.images[k].url == ResultUrls(res)[k])
            && resp.seed == (if res.seed.Some? then res.seed.value else body.seed)
            && Size(resp.width, resp.height) == Dims(a, body.resolution)
  {
    var call := Prepare(body).call;
    assert Post(Some(body), run) == Respond(body, call, run(call));
  }

  /** A provider `images` array of non-empty URL strings is echoed entry
      for entry. */
  lemma StringImagesEchoed(body: Body, call: ProviderCall, res: RunResult)
    requires res.images.Some?
    requires forall k :: 0 <= k < |res.images.value| ==>
               res.images.value[k].UrlText? && res.images.value[k].text != ""
    ensures var imgs := res.images.value;
            var resp := Respond(body, call, Returned(res));
            && resp.Generated? && |resp.images| == |imgs|
            && forall k :: 0 <= k < |imgs| ==> resp.images[k].url == imgs[k].text
  {
    CollectUrlStrings(res.images.value);
  }

  /** flux-pro at 1:1 and 768: the provider is asked for 768 by 768, and an
      array of non-empty URL strings comes back as the response's images. */
  lemma FluxProSquare768(body: Body, run: ProviderCall -> RunOutcome)
    requires body.modelId == "flux-pro" && body.aspect == "1:1" && body.resolution == 768
    ensures Prepare(body).Call?
    ensures Prepare(body).call.width == 768 && Prepare(body).call.height == 768
    ensures var out := run(Prepare(body).call);
            var resp := Post(Some(body), run);
            && out.Returned? && out.result.images.Some?
            && (forall k :: 0 <= k < |out.result.images.value| ==>
                  out.result.images.value[k].UrlText? && out.result.images.value[k].text != "")
            ==> && resp.Generated? && |resp.images| == |out.result.images.value|
                && forall k :: 0 <= k < |resp.images| ==> resp.images[k].url == out.result.images.value[k].text
  {
    assert RouteFor("flux-pro").Some? && ParseAspect("1:1") == Some(Square);
    ExactLongSide(Square, 768);
    SquareIsSquare(768);
    var call := Prepare(body).call;
    var out := run(call);
    assert Post(Some(body), run) == Respond(body, call, out);
    if && out.Returned? && out.result.images.Some?
       && (forall k :: 0 <= k < |out.result.images.value| ==>
             out.result.images.value[k].UrlText? && out.result.images.value[k].text != "")
    {
      StringImagesEchoed(body, call, out.result);
    }
  }
}
