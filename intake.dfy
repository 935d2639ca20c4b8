/**
 * What both inference services do with a request before running their model: the
 * dispatch on the input's shape and the decoding of a `data:image/...;base64,` URL.
 * Python exceptions are `Err` results carrying the exception's message.
 */
module Intake {
  import opened Wrappers
  import opened Strings

  /** A pixel image: one the libraries produced (opaque), or one made with `Image.new`. */
  datatype Image =
    | Picture(handle: nat)
    | Blank(mode: string, width: nat, height: nat, color: string)

  /** The value Gradio passes to `predict`. */
  datatype Input =
    | Text(s: string)       // a `str`
    | Pil(image: Image)     // a `PIL.Image.Image`
    | NoInput               // `None`
    | OtherValue(tag: nat)  // anything else, e.g. a number or a list

  /** The library calls the services make, as oracles; each may raise. */
  datatype Libraries = Libraries(
    b64decode: string -> Result<seq<bv8>>,       // `base64.b64decode`
    openBytes: seq<bv8> -> Result<Image>,        // `Image.open(io.BytesIO(b)).convert("RGB")`
    openPath: string -> Result<Image>,           // `Image.open(path)` on a file
    pathExists: string -> bool)                  // `os.path.exists`

  const DataImagePrefix: string := "data:image"
  const UnpackError: string := "not enough values to unpack (expected 2, got 1)"

  /** The index of the first comma, or `|s|` when there is none. */
  function FirstComma(s: string): (i: nat)
    ensures i <= |s|
    ensures i < |s| ==> s[i] == ','
    ensures forall k :: 0 <= k < i ==> s[k] != ','
  {
    if |s| == 0 then 0
    else if s[0] == ',' then 0
    else
      var j := FirstComma(s[1..]);
      assert forall k :: 1 <= k < j + 1 ==> s[k] == s[1..][k - 1];
      j + 1
  }

  /**
   * `header, encoded = s.split(",", 1)`: the text before and after the first comma;
   * without a comma the split has one piece and the unpacking raises.
   */
  function SplitHeader(s: string): (r: Result<(string, string)>)
    ensures r.Ok? <==> ',' in s
    ensures r.Ok? ==> s == r.value.0 + "," + r.value.1 && ',' !in r.value.0
    ensures r.Err? ==> r.message == UnpackError
  {
    var i := FirstComma(s);
    if i == |s| then Err(UnpackError)
    else
      assert s == s[..i] + "," + s[i + 1..];
      Ok((s[..i], s[i + 1..]))
  }

  /** `_decode_data_url`: decode the base64 payload after the first comma and open it as RGB. */
  function DecodeDataUrl(lib: Libraries, url: string): Result<Image> {
    match SplitHeader(url)
    case Err(m) => Err(m)
    case Ok((_, encoded)) =>
      match lib.b64decode(encoded)
      case Err(m) => Err(m)
      case Ok(bytes) => lib.openBytes(bytes)
  }

  /** Where the input dispatch leads: an image to run the model on, or an early return. */
  datatype Dispatch =
    | Ready(image: Image)   // go on to inference
    | ReturnNone            // `return None`
    | ReturnEmpty           // `return []`
    | Raised(error: string) // decoding raised

  /** The `isinstance` chain of both `predict` functions. */
  function TakeInput(lib: Libraries, input: Input): (r: Dispatch)
    ensures r.ReturnNone? <==> input.NoInput?
    ensures r.ReturnEmpty? <==> input.OtherValue? || (input.Text? && !StartsWith(input.s, DataImagePrefix))
    ensures input.Pil? ==> r == Ready(input.image)
    ensures r.Raised? ==> input.Text? && StartsWith(input.s, DataImagePrefix)
  {
    match input
    case Text(s) =>
      if StartsWith(s, DataImagePrefix) then
        match DecodeDataUrl(lib, s)
        case Ok(img) => Ready(img)
        case Err(m) => Raised(m)
      else ReturnEmpty
    case Pil(img) => Ready(img)
    case NoInput => ReturnNone
    case OtherValue(_) => ReturnEmpty
  }

  // ---------------------------------------------------------------------------
  // Properties of the intake

  /** The header is the text before the first comma and the payload everything after it, commas included. */
  lemma SplitHeaderPieces(header: string, encoded: string)
    requires ',' !in header
    ensures SplitHeader(header + "," + encoded) == Ok((header, encoded))
  {
    var s := header + "," + encoded;
    var r := SplitHeader(s);
    var i := FirstComma(s);
    assert s[|header|] == ',';
    assert forall k :: 0 <= k < |header| ==> s[k] == header[k];
    assert r.value.0 == header;
    assert r.value.1 == s[i + 1..];
    assert s[|header| + 1..] == encoded;
  }

  /** A data URL is decoded from exactly the text after its first comma. */
  lemma DataUrlPayload(lib: Libraries, header: string, encoded: string)
    requires StartsWith(header + "," + encoded, DataImagePrefix) && ',' !in header
    ensures TakeInput(lib, Text(header + "," + encoded)) ==
      match lib.b64decode(encoded)
      case Err(m) => Raised(m)
      case Ok(bytes) => match lib.openBytes(bytes) case Err(m) => Raised(m) case Ok(img) => Ready(img)
  {
    SplitHeaderPieces(header, encoded);
  }

  /** A data URL without a comma raises the unpacking error before anything is decoded. */
  lemma NoCommaRaises(lib: Libraries, s: string)
    requires StartsWith(s, DataImagePrefix) && ',' !in s
    ensures TakeInput(lib, Text(s)) == Raised(UnpackError)
  {
  }
}
