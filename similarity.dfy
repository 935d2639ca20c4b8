/**
 * The celebrity look-alike service: classify the face, rank the classes by probability,
 * and return a gallery of the five best matches, each a reference picture and a caption.
 */
module Similarity {
  import opened Wrappers
  import opened Strings
  import opened Intake

  /** The loaded learner: its class names and its inference, which may raise. */
  datatype Classifier = Classifier(
    vocab: seq<string>,                   // `learn.dls.vocab`
    infer: Image -> Result<seq<real>>)    // `learn.predict(PILImage.create(img))`, keeping the probabilities

  /** The service's fixed surroundings. */
  datatype Env = Env(
    lib: Libraries,
    imagesDir: string,                    // `CELEB_IMAGES_DIR`
    argsort: seq<real> -> seq<int>,       // `probs.argsort(descending=True)`
    fmt1: real -> string)                 // `format(x, ".1f")`

  /** One gallery entry: the picture shown and its caption. */
  datatype Item = Item(image: Image, caption: string)

  const TopK: nat := 5
  const Placeholder: Image := Blank("RGB", 224, 224, "gray")
  const MissingSuffix: string := " (Image Missing)"
  const IndexError: string := "index out of range"

  /** `xs[i]` in Python: negative indices count from the end, others out of range raise. */
  function PyIndex<T>(xs: seq<T>, i: int): (r: Option<T>)
    ensures r.Some? <==> -|xs| <= i < |xs|
    ensures 0 <= i < |xs| ==> r == Some(xs[i])
    ensures -|xs| <= i < 0 ==> r == Some(xs[|xs| + i])
  {
    if 0 <= i < |xs| then Some(xs[i])
    else if -|xs| <= i < 0 then Some(xs[|xs| + i])
    else None
  }

  /** `os.path.join(dir, name)` on POSIX: an absolute `name` replaces `dir`, otherwise one separator joins them. */
  function PathJoin(dir: string, name: string): (p: string)
    ensures StartsWith(name, "/") ==> p == name
    ensures !StartsWith(name, "/") ==> exists sep :: sep in {"", "/"} && p == dir + sep + name
    ensures !StartsWith(name, "/") && dir != "" && dir[|dir| - 1] != '/' ==> p == dir + "/" + name
  {
    if StartsWith(name, "/") then name
    else if dir == "" || dir[|dir| - 1] == '/' then
      assert dir + name == dir + "" + name;
      dir + name
    else dir + "/" + name
  }

  /** Where the reference picture of a class lives. */
  function ReferencePath(env: Env, name: string): string {
    PathJoin(env.imagesDir, name + ".jpg")
  }

  /** `f"{name} ({score * 100:.1f}%)"`. */
  function Caption(env: Env, name: string, score: real): string {
    name + " (" + env.fmt1(score * 100.0) + "%)"
  }

  /** The gallery entry for one class index, or the exception building it raises. */
  function ItemFor(env: Env, vocab: seq<string>, probs: seq<real>, idx: int): (r: Result<Item>)
    ensures r.Ok? <==> (-|vocab| <= idx < |vocab| && -|probs| <= idx < |probs| &&
      (env.lib.pathExists(ReferencePath(env, PyIndex(vocab, idx).value)) ==>
        env.lib.openPath(ReferencePath(env, PyIndex(vocab, idx).value)).Ok?))
  {
    match PyIndex(vocab, idx)
    case None => Err(IndexError)
    case Some(name) =>
      match PyIndex(probs, idx)
      case None => Err(IndexError)
      case Some(score) =>
        var path := ReferencePath(env, name);
        var caption := Caption(env, name, score);
        if env.lib.pathExists(path) then
          match env.lib.openPath(path)
          case Err(m) => Err(m)
          case Ok(img) => Ok(Item(img, caption))
        else Ok(Item(Placeholder, caption + MissingSuffix))
  }

  /** The gallery for the chosen indices, in their order; the first entry that raises aborts it. */
  function Gallery(env: Env, vocab: seq<string>, probs: seq<real>, top: seq<int>): Result<seq<Item>> {
    if |top| == 0 then Ok([])
    else
      match Gallery(env, vocab, probs, top[..|top| - 1])
      case Err(m) => Err(m)
      case Ok(items) =>
        match ItemFor(env, vocab, probs, top[|top| - 1])
        case Err(m) => Err(m)
        case Ok(item) => Ok(items + [item])
  }

  /** `order[:5]`. */
  function TopIndices(order: seq<int>): (top: seq<int>)
    ensures |top| == if |order| < TopK then |order| else TopK
    ensures top == order[..|top|]
  {
    if |order| < TopK then order else order[..TopK]
  }

  /** What `predict` returns (None for `None`); every exception becomes the empty gallery. */
  function PredictSpec(env: Env, model: Option<Classifier>, input: Input): Option<seq<Item>> {
    if model.None? then Some([])
    else
      match TakeInput(env.lib, input)
      case ReturnNone => None
      case ReturnEmpty => Some([])
      case Raised(_) => Some([])
      case Ready(img) =>
        match model.value.infer(img)
        case Err(_) => Some([])
        case Ok(probs) =>
          match Gallery(env, model.value.vocab, probs, TopIndices(env.argsort(probs)))
          case Err(_) => Some([])
          case Ok(items) => Some(items)
  }

  // ---------------------------------------------------------------------------
  // The gallery loop

  lemma GalleryStep(env: Env, vocab: seq<string>, probs: seq<real>, top: seq<int>, i: nat)
    requires i < |top|
    ensures Gallery(env, vocab, probs, top[..i + 1]) ==
      match Gallery(env, vocab, probs, top[..i])
      case Err(m) => Err(m)
      case Ok(items) =>
        match ItemFor(env, vocab, probs, top[i])
        case Err(m) => Err(m)
        case Ok(item) => Ok(items + [item])
  {
    assert top[..i + 1][..i] == top[..i];
  }

  /** Once a prefix of the indices raises, the whole gallery raises the same exception. */
  lemma {:induction false} GalleryErrSticks(env: Env, vocab: seq<string>, probs: seq<real>, top: seq<int>, i: nat, m: string)
    requires i <= |top| && Gallery(env, vocab, probs, top[..i]) == Err(m)
    ensures Gallery(env, vocab, probs, top) == Err(m)
    decreases |top| - i
  {
    if i == |top| {
      assert top[..i] == top;
    } else {
      GalleryStep(env, vocab, probs, top, i);
      GalleryErrSticks(env, vocab, probs, top, i + 1, m);
    }
  }

  /** The `for idx in top_indices` loop: one entry appended per index. */
  method BuildGallery(env: Env, vocab: seq<string>, probs: seq<real>, top: seq<int>) returns (r: Result<seq<Item>>)
    ensures r == Gallery(env, vocab, probs, top)
  {
    var galleryItems: seq<Item> := [];
    var i := 0;
    while i < |top|
      invariant 0 <= i <= |top|
      invariant Gallery(env, vocab, probs, top[..i]) == Ok(galleryItems)
    {
      GalleryStep(env, vocab, probs, top, i);
      var idx := top[i];
      var name := PyIndex(vocab, idx);
      if name.None? {
        GalleryErrSticks(env, vocab, probs, top, i + 1, IndexError);
        return Err(IndexError);
      }
      var score := PyIndex(probs, idx);
      if score.None? {
        GalleryErrSticks(env, vocab, probs, top, i + 1, IndexError);
        return Err(IndexError);
      }
      var refPath := ReferencePath(env, name.value);
      var caption := Caption(env, name.value, score.value);
      if env.lib.pathExists(refPath) {
        var celebImg := env.lib.openPath(refPath);
        if celebImg.Err? {
          GalleryErrSticks(env, vocab, probs, top, i + 1, celebImg.message);
          return Err(celebImg.message);
        }
        galleryItems := galleryItems + [Item(celebImg.value, caption)];
      } else {
        galleryItems := galleryItems + [Item(Placeholder, caption + MissingSuffix)];
      }
      i := i + 1;
    }
    assert top[..i] == top;
    return Ok(galleryItems);
  }

  /** `predict`, with the gallery built by the loop. */
  method Predict(env: Env, model: Option<Classifier>, input: Input) returns (r: Option<seq<Item>>)
    ensures r == PredictSpec(env, model, input)
  {
    if model.None? {
      return Some([]);
    }
    var intake := TakeInput(env.lib, input);
    match intake {
      case ReturnNone => return None;
      case ReturnEmpty => return Some([]);
      case Raised(_) => return Some([]);
      case Ready(img) =>
        var probs := model.value.infer(img);
        if probs.Err? {
          return Some([]);
        }
        var topIndices := TopIndices(env.argsort(probs.value));
        var gallery := BuildGallery(env, model.value.vocab, probs.value, topIndices);
        match gallery {
          case Err(_) => return Some([]);
          case Ok(items) => return Some(items);
        }
    }
  }

  // ---------------------------------------------------------------------------
  // Properties of the gallery

  /**
   * The gallery raises exactly when some chosen index raises, and otherwise holds one
   * entry per index, in the indices' order: nothing is dropped or reordered.
   */
  lemma {:induction false} GalleryElementwise(env: Env, vocab: seq<string>, probs: seq<real>, top: seq<int>)
    ensures Gallery(env, vocab, probs, top).Ok? <==> forall k :: 0 <= k < |top| ==> ItemFor(env, vocab, probs, top[k]).Ok?
    ensures Gallery(env, vocab, probs, top).Ok? ==>
      |Gallery(env, vocab, probs, top).value| == |top| &&
      forall k :: 0 <= k < |top| ==> Gallery(env, vocab, probs, top).value[k] == ItemFor(env, vocab, probs, top[k]).value
  {
    if |top| > 0 {
      var init := top[..|top| - 1];
      GalleryElementwise(env, vocab, probs, init);
      forall k | 0 <= k < |init| ensures init[k] == top[k] { }
    }
  }

  /**
   * A found reference picture is shown under the plain caption; a missing one is replaced
   * by the gray 224x224 placeholder and the caption gains " (Image Missing)", and only then.
   */
  lemma ItemShape(env: Env, vocab: seq<string>, probs: seq<real>, idx: int)
    requires 0 <= idx < |vocab| && 0 <= idx < |probs|
    requires ItemFor(env, vocab, probs, idx).Ok?
    ensures var item := ItemFor(env, vocab, probs, idx).value;
      var path := ReferencePath(env, vocab[idx]);
      var caption := vocab[idx] + " (" + env.fmt1(probs[idx] * 100.0) + "%)";
      && (env.lib.pathExists(path) ==> item == Item(env.lib.openPath(path).value, caption))
      && (!env.lib.pathExists(path) ==> item == Item(Placeholder, caption + MissingSuffix))
  {
  }

  /** The reference path ends in the class name with ".jpg", under the images directory unless the name is absolute. */
  lemma ReferencePathShape(env: Env, name: string)
    requires !StartsWith(name, "/") && env.imagesDir != "" && env.imagesDir[|env.imagesDir| - 1] != '/'
    ensures ReferencePath(env, name) == env.imagesDir + "/" + name + ".jpg"
  {
    var file := name + ".jpg";
    assert !StartsWith(file, "/") by {
      if |name| > 0 {
        assert file[..1] == name[..1];
      } else {
        assert file[..1] == ".";
      }
    }
  }

  // ---------------------------------------------------------------------------
  // Properties of the ranking

  /** No index occurs twice. */
  predicate Distinct(xs: seq<int>) {
    forall a, b :: 0 <= a < b < |xs| ==> xs[a] != xs[b]
  }

  /**
   * What `argsort(descending=True)` promises: a permutation of the indices of `probs`
   * along which the probabilities never increase (ties in any order).
   */
  predicate IsDescendingArgsort(probs: seq<real>, order: seq<int>) {
    && |order| == |probs|
    && (forall k :: 0 <= k < |order| ==> 0 <= order[k] < |probs|)
    && Distinct(order)
    && (forall j :: 0 <= j < |probs| ==> j in order)
    && (forall a, b :: 0 <= a < b < |order| ==> probs[order[a]] >= probs[order[b]])
  }

  /**
   * The chosen indices are min(5, |probs|) distinct indices of `probs`, their scores never
   * increase, and every index left out scores no higher than any chosen one.
   */
  lemma TopRanking(probs: seq<real>, order: seq<int>)
    requires IsDescendingArgsort(probs, order)
    ensures var top := TopIndices(order);
      && |top| == (if |probs| < TopK then |probs| else TopK)
      && Distinct(top)
      && (forall k :: 0 <= k < |top| ==> 0 <= top[k] < |probs|)
      && (forall a, b :: 0 <= a < b < |top| ==> probs[top[a]] >= probs[top[b]])
      && (forall j, k :: 0 <= j < |probs| && j !in top && 0 <= k < |top| ==> probs[j] <= probs[top[k]])
  {
    var top := TopIndices(order);
    forall j, k | 0 <= j < |probs| && j !in top && 0 <= k < |top| ensures probs[j] <= probs[top[k]] {
      assert j in order;
      var m :| 0 <= m < |order| && order[m] == j;
      assert top[k] == order[k];
    }
  }

  /**
   * With a well-behaved ranking, a vocabulary covering every class and reference pictures
   * that open whenever they exist, a face picture yields exactly min(5, |probs|) entries,
   * entry k being the one for the k-th best class.
   */
  lemma PredictGallerySize(env: Env, c: Classifier, img: Image, probs: seq<real>)
    requires c.infer(img) == Ok(probs) && IsDescendingArgsort(probs, env.argsort(probs))
    requires |probs| <= |c.vocab|
    requires forall name :: env.lib.pathExists(ReferencePath(env, name)) ==> env.lib.openPath(ReferencePath(env, name)).Ok?
    ensures var top := TopIndices(env.argsort(probs));
      && PredictSpec(env, Some(c), Pil(img)).Some?
      && |PredictSpec(env, Some(c), Pil(img)).value| == (if |probs| < TopK then |probs| else TopK)
      && forall k :: 0 <= k < |top| ==> PredictSpec(env, Some(c), Pil(img)).value[k] == ItemFor(env, c.vocab, probs, top[k]).value
  {
    var top := TopIndices(env.argsort(probs));
    TopRanking(probs, env.argsort(probs));
    GalleryElementwise(env, c.vocab, probs, top);
  }

  // ---------------------------------------------------------------------------
  // Properties of the request handling

  /** Without a model every request gets the empty gallery, before the input is looked at. */
  lemma NoModelEmpty(env: Env, input: Input)
    ensures PredictSpec(env, None, input) == Some([])
  {
  }

  /** `None` yields None and only `None` does; unsupported values and other strings yield the empty gallery. */
  lemma DispatchEarlyReturns(env: Env, c: Classifier, input: Input)
    ensures PredictSpec(env, Some(c), input).None? <==> input.NoInput?
    ensures input.OtherValue? ==> PredictSpec(env, Some(c), input) == Some([])
    ensures input.Text? && !StartsWith(input.s, DataImagePrefix) ==> PredictSpec(env, Some(c), input) == Some([])
  {
  }

  /** A failure anywhere, from decoding to loading a reference picture, yields the empty gallery. */
  lemma FailuresGiveEmpty(env: Env, c: Classifier, input: Input)
    requires TakeInput(env.lib, input).Raised? ||
      (TakeInput(env.lib, input).Ready? && c.infer(TakeInput(env.lib, input).image).Err?) ||
      (TakeInput(env.lib, input).Ready? && c.infer(TakeInput(env.lib, input).image).Ok? &&
        var probs := c.infer(TakeInput(env.lib, input).image).value;
        Gallery(env, c.vocab, probs, TopIndices(env.argsort(probs))).Err?)
    ensures PredictSpec(env, Some(c), input) == Some([])
  {
  }

  /** A data URL without a comma yields the empty gallery. */
  lemma NoCommaEmpty(env: Env, c: Classifier, s: string)
    requires StartsWith(s, DataImagePrefix) && ',' !in s
    ensures PredictSpec(env, Some(c), Text(s)) == Some([])
  {
    NoCommaRaises(env.lib, s);
  }
}
