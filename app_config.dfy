/**
 * The application's configuration (`AppConfig`): eight environment
 * variables read once at construction, and getters that fall back to fixed
 * defaults when a variable is unset or empty.
 */
module AppConfiguration {
  import opened Results
  import opened Strings
  import opened Integers
  import opened Settings

  const DefaultLocalFiles: seq<string> := ["matias.txt", "ian.txt"]

  /** The raw values of the variables, as `os.environ.get` returned them. */
  datatype AppConfig = AppConfig(
    llamaStackPort: Option<string>,
    inferenceModel: Option<string>,
    embeddingModel: Option<string>,
    embeddingDim: Option<string>,
    localFiles: Option<string>,
    vectorDbProvider: Option<string>,
    chunkSizeInTokens: Option<string>,
    ragTopK: Option<string>)
  {
    function LlamaStackPort(): (r: Result<int, ConversionError>)
      ensures !IsSet(llamaStackPort) ==> r == Success(DefaultLlamaStackPort)
      ensures forall n: int :: llamaStackPort == Some(Decimal(n)) ==> r == Success(n)
      ensures IsSet(llamaStackPort) ==> (r.Success? <==> ParseInt(llamaStackPort.value).Some?)
      ensures IsSet(llamaStackPort) && r.Success? ==> ParseInt(llamaStackPort.value) == Some(r.value)
      ensures r.Failure? ==> IsSet(llamaStackPort) && r.error == InvalidLiteral(llamaStackPort.value)
    {
      IntOr(llamaStackPort, DefaultLlamaStackPort)
    }

    function InferenceModel(): (r: string)
      ensures IsSet(inferenceModel) ==> r == inferenceModel.value
      ensures !IsSet(inferenceModel) ==> r == DefaultInferenceModel
    {
      StrOr(inferenceModel, DefaultInferenceModel)
    }

    function EmbeddingModel(): (r: string)
      ensures IsSet(embeddingModel) ==> r == embeddingModel.value
      ensures !IsSet(embeddingModel) ==> r == DefaultEmbeddingModel
    {
      StrOr(embeddingModel, DefaultEmbeddingModel)
    }

    function EmbeddingDim(): (r: Result<int, ConversionError>)
      ensures !IsSet(embeddingDim) ==> r == Success(DefaultEmbeddingDim)
      ensures forall n: int :: embeddingDim == Some(Decimal(n)) ==> r == Success(n)
      ensures IsSet(embeddingDim) ==> (r.Success? <==> ParseInt(embeddingDim.value).Some?)
      ensures IsSet(embeddingDim) && r.Success? ==> ParseInt(embeddingDim.value) == Some(r.value)
      ensures r.Failure? ==> IsSet(embeddingDim) && r.error == InvalidLiteral(embeddingDim.value)
    {
      IntOr(embeddingDim, DefaultEmbeddingDim)
    }

    /**
     * The comma-separated file list: one entry per comma plus one, in input
     * order, each stripped of surrounding whitespace, empty entries kept.
     */
    function LocalFiles(): (r: seq<string>)
      ensures !IsSet(localFiles) ==> r == DefaultLocalFiles
      ensures IsSet(localFiles) ==> |r| == CountOf(localFiles.value, ',') + 1
      ensures IsSet(localFiles) ==> forall i :: 0 <= i < |r| ==>
        && Stripped(r[i])
        && ',' !in r[i]
        && r[i] == Strip(Split(localFiles.value, ',')[i])
    {
      if IsSet(localFiles) then
        var items := Split(localFiles.value, ',');
        var r := seq(|items|, i requires 0 <= i < |items| => Strip(items[i]));
        assert forall i :: 0 <= i < |r| ==> ',' !in r[i] by {
          forall i | 0 <= i < |r| ensures ',' !in r[i] {
            var k := StripSlice(items[i]);
            assert r[i] == items[i][k..k + |r[i]|];
          }
        }
        r
      else DefaultLocalFiles
    }

    function VectorDbProvider(): (r: string)
      ensures IsSet(vectorDbProvider) ==> r == vectorDbProvider.value
      ensures !IsSet(vectorDbProvider) ==> r == DefaultVectorDbProvider
    {
      StrOr(vectorDbProvider, DefaultVectorDbProvider)
    }

    function ChunkSizeInTokens(): (r: Result<int, ConversionError>)
      ensures !IsSet(chunkSizeInTokens) ==> r == Success(DefaultChunkSizeInTokens)
      ensures forall n: int :: chunkSizeInTokens == Some(Decimal(n)) ==> r == Success(n)
      ensures IsSet(chunkSizeInTokens) ==> (r.Success? <==> ParseInt(chunkSizeInTokens.value).Some?)
      ensures IsSet(chunkSizeInTokens) && r.Success? ==> ParseInt(chunkSizeInTokens.value) == Some(r.value)
      ensures r.Failure? ==> IsSet(chunkSizeInTokens) && r.error == InvalidLiteral(chunkSizeInTokens.value)
    {
      IntOr(chunkSizeInTokens, DefaultChunkSizeInTokens)
    }

    function RagTopK(): (r: Result<int, ConversionError>)
      ensures !IsSet(ragTopK) ==> r == Success(DefaultRagTopK)
      ensures forall n: int :: ragTopK == Some(Decimal(n)) ==> r == Success(n)
      ensures IsSet(ragTopK) ==> (r.Success? <==> ParseInt(ragTopK.value).Some?)
      ensures IsSet(ragTopK) && r.Success? ==> ParseInt(ragTopK.value) == Some(r.value)
      ensures r.Failure? ==> IsSet(ragTopK) && r.error == InvalidLiteral(ragTopK.value)
    {
      IntOr(ragTopK, DefaultRagTopK)
    }

    /** The LlamaStack client's URL: the local prefix followed by a text that parses back to the port. */
    function BaseUrl(): (r: Result<string, ConversionError>)
      ensures r.Success? <==> LlamaStackPort().Success?
      ensures r.Success? ==>
        && |LocalhostPrefix| < |r.value|
        && r.value[..|LocalhostPrefix|] == LocalhostPrefix
        && r.value[|LocalhostPrefix|..] == Decimal(LlamaStackPort().value)
        && ParseInt(r.value[|LocalhostPrefix|..]) == Some(LlamaStackPort().value)
      ensures r.Failure? ==> r.error == LlamaStackPort().error
    {
      var port := LlamaStackPort();
      if port.Success? then Success(LocalhostUrl(port.value)) else Failure(port.error)
    }
  }

  /** `AppConfig()`: each field is `os.environ.get` of the variable of the same name. */
  function FromEnvironment(env: map<string, string>): (r: AppConfig)
    ensures ReadFrom(env, "LLAMA_STACK_PORT", r.llamaStackPort)
    ensures ReadFrom(env, "INFERENCE_MODEL", r.inferenceModel)
    ensures ReadFrom(env, "EMBEDDING_MODEL", r.embeddingModel)
    ensures ReadFrom(env, "EMBEDDING_DIM", r.embeddingDim)
    ensures ReadFrom(env, "LOCAL_FILES", r.localFiles)
    ensures ReadFrom(env, "VECTOR_DB_PROVIDER", r.vectorDbProvider)
    ensures ReadFrom(env, "CHUNK_SIZE_IN_TOKENS", r.chunkSizeInTokens)
    ensures ReadFrom(env, "RAG_TOP_K", r.ragTopK)
  {
    AppConfig(
      Get(env, "LLAMA_STACK_PORT"),
      Get(env, "INFERENCE_MODEL"),
      Get(env, "EMBEDDING_MODEL"),
      Get(env, "EMBEDDING_DIM"),
      Get(env, "LOCAL_FILES"),
      Get(env, "VECTOR_DB_PROVIDER"),
      Get(env, "CHUNK_SIZE_IN_TOKENS"),
      Get(env, "RAG_TOP_K"))
  }

  /** With none of its variables set, every getter gives its default. */
  lemma UnsetEnvironmentDefaults(env: map<string, string>)
    requires forall name :: name in env ==> env[name] == ""
    ensures var c := FromEnvironment(env);
      && c.LlamaStackPort() == Success(8321)
      && c.InferenceModel() == "ollama/llama3.2:3b-instruct-fp16"
      && c.EmbeddingModel() == "ollama/all-minilm:latest"
      && c.EmbeddingDim() == Success(384)
      && c.LocalFiles() == ["matias.txt", "ian.txt"]
      && c.VectorDbProvider() == "milvus"
      && c.ChunkSizeInTokens() == Success(256)
      && c.RagTopK() == Success(3)
      && c.BaseUrl() == Success("http://localhost:8321")
  {
    var c := FromEnvironment(env);
    assert !IsSet(c.llamaStackPort) && !IsSet(c.inferenceModel) && !IsSet(c.embeddingModel);
    assert !IsSet(c.embeddingDim) && !IsSet(c.localFiles) && !IsSet(c.vectorDbProvider);
    assert !IsSet(c.chunkSizeInTokens) && !IsSet(c.ragTopK);
    DefaultBaseUrl(c);
  }

  lemma DefaultBaseUrl(c: AppConfig)
    requires !IsSet(c.llamaStackPort)
    ensures c.BaseUrl() == Success("http://localhost:8321")
  {
    DefaultLocalhostUrl();
  }

  /**
   * Joining stripped, comma-free file names with "," and reading them back
   * through `LOCAL_FILES` gives the same names.
   */
  lemma LocalFilesRoundTrip(names: seq<string>, c: AppConfig)
    requires names != []
    requires forall i :: 0 <= i < |names| ==> ',' !in names[i] && Stripped(names[i])
    requires Join(names, ',') != ""
    requires c.localFiles == Some(Join(names, ','))
    ensures c.LocalFiles() == names
  {
    SplitJoin(names, ',');
    forall i | 0 <= i < |names| ensures Strip(names[i]) == names[i] {
      StripStripped(names[i]);
    }
  }
}
