/**
 * What the two configuration classes share: reading an environment
 * variable, Python's truthiness test on its value, the `int(v) if v else d`
 * and `v or d` defaulting idioms, and the local service URL.
 */
module Settings {
  import opened Results
  import opened Strings
  import opened Integers

  /** `os.environ.get(name)`. */
  function Get(env: map<string, string>, name: string): (r: Option<string>)
    ensures r.Some? <==> name in env
    ensures name in env ==> r.value == env[name]
  {
    if name in env then Some(env[name]) else None
  }

  /** `v` is what `os.environ.get(name)` gives: the variable's value when it is set, nothing otherwise. */
  predicate ReadFrom(env: map<string, string>, name: string, v: Option<string>) {
    if name in env then v == Some(env[name]) else v == None
  }

  /** Truthiness of an optional string in Python: present and non-empty. */
  predicate IsSet(v: Option<string>) {
    v.Some? && v.value != ""
  }

  /**
   * Why `int(v)` failed: `v` was `None` (Python raises `TypeError`) or its
   * text is not an integer literal (Python raises `ValueError`).
   */
  datatype ConversionError = MissingValue | InvalidLiteral(text: string)

  /** `int(v)` applied to the raw variable, with no default. */
  function ToInt(v: Option<string>): (r: Result<int, ConversionError>)
    ensures v.None? ==> r == Failure(MissingValue)
    ensures v.Some? && Strip(v.value, IsIntSpace) == "" ==> r == Failure(InvalidLiteral(v.value))
    ensures v.Some? ==> (r.Success? <==> ParseInt(v.value).Some?)
    ensures v.Some? && r.Success? ==> ParseInt(v.value) == Some(r.value)
    ensures v.Some? && r.Failure? ==> r.error == InvalidLiteral(v.value)
    ensures v.Some? && SeparatorFramed(v.value) ==> r == Failure(InvalidLiteral(v.value))
    ensures forall n: int :: v == Some(Decimal(n)) ==> r == Success(n)
  {
    DecimalRoundTripAll();
    match v
    case None => Failure(MissingValue)
    case Some(text) =>
      assert SeparatorFramed(text) ==> ParseInt(text) == None by {
        if SeparatorFramed(text) {
          ParseIntRejectsSeparator(text);
        }
      }
      match ParseInt(text)
      case Some(n) => Success(n)
      case None => Failure(InvalidLiteral(text))
  }

  /** `int(v) if v else default`. */
  function IntOr(v: Option<string>, default: int): (r: Result<int, ConversionError>)
    ensures !IsSet(v) ==> r == Success(default)
    ensures IsSet(v) ==> (r.Success? <==> ParseInt(v.value).Some?)
    ensures IsSet(v) && r.Success? ==> ParseInt(v.value) == Some(r.value)
    ensures r.Failure? ==> IsSet(v) && r.error == InvalidLiteral(v.value)
    ensures v.Some? && SeparatorFramed(v.value) ==> r == Failure(InvalidLiteral(v.value))
    ensures forall n: int :: v == Some(Decimal(n)) ==> r == Success(n)
  {
    if IsSet(v) then ToInt(v) else Success(default)
  }

  /** `v or default`. */
  function StrOr(v: Option<string>, default: string): (r: string)
    ensures !IsSet(v) ==> r == default
    ensures IsSet(v) ==> r == v.value
  {
    if IsSet(v) then v.value else default
  }

  // The defaults both configuration classes fall back to.
  const DefaultLlamaStackPort := 8321
  const DefaultInferenceModel := "ollama/llama3.2:3b-instruct-fp16"
  const DefaultEmbeddingModel := "ollama/all-minilm:latest"
  const DefaultEmbeddingDim := 384
  const DefaultVectorDbProvider := "milvus"
  const DefaultChunkSizeInTokens := 256
  const DefaultRagTopK := 3

  const LocalhostPrefix: string := "http://localhost:"

  /** `f"http://localhost:{port}"`: the prefix, then the port in decimal, which parses back. */
  function LocalhostUrl(port: int): (r: string)
    ensures |LocalhostPrefix| < |r| && r[..|LocalhostPrefix|] == LocalhostPrefix
    ensures r[|LocalhostPrefix|..] == Decimal(port)
    ensures ParseInt(r[|LocalhostPrefix|..]) == Some(port)
  {
    var r := LocalhostPrefix + Decimal(port);
    assert r[|LocalhostPrefix|..] == Decimal(port);
    DecimalRoundTrip(port);
    r
  }

  /** The URL for the default port, spelled out. */
  lemma DefaultLocalhostUrl()
    ensures LocalhostUrl(DefaultLlamaStackPort) == "http://localhost:8321"
  {
    DefaultPortText();
    assert LocalhostPrefix + Decimal(DefaultLlamaStackPort) == "http://localhost:8321";
  }

  lemma DefaultPortText()
    ensures Decimal(DefaultLlamaStackPort) == "8321"
  {
    assert NatDigits(8) == "8";
    assert NatDigits(83) == "83";
    assert NatDigits(832) == "832";
  }

}
