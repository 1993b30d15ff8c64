/**
 * The RAG server's configuration (`RAGServerConfig`): the same defaulted
 * settings as the application configuration, plus a vector database name
 * with a generated fallback and three vision-model settings without defaults.
 */
module RagServerConfiguration {
  import opened Results
  import opened Strings
  import opened Integers
  import opened Settings

  const VectorDbNamePrefix := "rag-db-"

  /** The raw values of the variables, as `os.environ.get` returned them. */
  datatype RAGServerConfig = RAGServerConfig(
    llamaStackPort: Option<string>,
    inferenceModel: Option<string>,
    embeddingModel: Option<string>,
    embeddingDim: Option<string>,
    vectorDbProvider: Option<string>,
    chunkSizeInTokens: Option<string>,
    ragTopK: Option<string>,
    vectorDbName: Option<string>,
    vlmModelName: Option<string>,
    ollamaApiUrlForGenerating: Option<string>,
    minOcrTextLength: Option<string>)
  {
    function LlamaStackPort(): (r: Result<int, ConversionError>)
      ensures !IsSet(llamaStackPort) ==> r == Success(DefaultLlamaStackPort)
      ensures forall n: int :: llamaStackPort == Some(Decimal(n)) ==> r == Success(n)
      ensures IsSet(llamaStackPort) ==> (r.Success? <==> ParseInt(llamaStackPort.value).Some?)
      ensures IsSet(llamaStackPort) && r.Success? ==> ParseInt(llamaStackPort.value) == Some(r.value)
      ensures r.Failure? ==> IsSet(llamaStackPort) && r.error == InvalidLiteral(llamaStackPort.value)
    {
      IntOr(llamaStackPort, DefaultLlamaStackPort)
    }

    function InferenceModel(): (r: string)
      ensures IsSet(inferenceModel) ==> r == inferenceModel.value
      ensures !IsSet(inferenceModel) ==> r == DefaultInferenceModel
    {
      StrOr(inferenceModel, DefaultInferenceModel)
    }

    function EmbeddingModel(): (r: string)
      ensures IsSet(embeddingModel) ==> r == embeddingModel.value
      ensures !IsSet(embeddingModel) ==> r == DefaultEmbeddingModel
    {
      StrOr(embeddingModel, DefaultEmbeddingModel)
    }

    function EmbeddingDim(): (r: Result<int, ConversionError>)
      ensures !IsSet(embeddingDim) ==> r == Success(DefaultEmbeddingDim)
      ensures forall n: int :: embeddingDim == Some(Decimal(n)) ==> r == Success(n)
      ensures IsSet(embeddingDim) ==> (r.Success? <==> ParseInt(embeddingDim.value).Some?)
      ensures IsSet(embeddingDim) && r.Success? ==> ParseInt(embeddingDim.value) == Some(r.value)
      ensures r.Failure? ==> IsSet(embeddingDim) && r.error == InvalidLiteral(embeddingDim.value)
    {
      IntOr(embeddingDim, DefaultEmbeddingDim)
    }

    function VectorDbProvider(): (r: string)
      ensures IsSet(vectorDbProvider) ==> r == vectorDbProvider.value
      ensures !IsSet(vectorDbProvider) ==> r == DefaultVectorDbProvider
    {
      StrOr(vectorDbProvider, DefaultVectorDbProvider)
    }

    function ChunkSizeInTokens(): (r: Result<int, ConversionError>)
      ensures !IsSet(chunkSizeInTokens) ==> r == Success(DefaultChunkSizeInTokens)
      ensures forall n: int :: chunkSizeInTokens == Some(Decimal(n)) ==> r == Success(n)
      ensures IsSet(chunkSizeInTokens) ==> (r.Success? <==> ParseInt(chunkSizeInTokens.value).Some?)
      ensures IsSet(chunkSizeInTokens) && r.Success? ==> ParseInt(chunkSizeInTokens.value) == Some(r.value)
      ensures r.Failure? ==> IsSet(chunkSizeInTokens) && r.error == InvalidLiteral(chunkSizeInTokens.value)
    {
      IntOr(chunkSizeInTokens, DefaultChunkSizeInTokens)
    }

    function RagTopK(): (r: Result<int, ConversionError>)
      ensures !IsSet(ragTopK) ==> r == Success(DefaultRagTopK)
      ensures forall n: int :: ragTopK == Some(Decimal(n)) ==> r == Success(n)
      ensures IsSet(ragTopK) ==> (r.Success? <==> ParseInt(ragTopK.value).Some?)
      ensures IsSet(ragTopK) && r.Success? ==> ParseInt(ragTopK.value) == Some(r.value)
      ensures r.Failure? ==> IsSet(ragTopK) && r.error == InvalidLiteral(ragTopK.value)
    {
      IntOr(ragTopK, DefaultRagTopK)
    }

    /**
     * The configured name when it is non-empty; otherwise a fresh name made of
     * the prefix "rag-db-" and the hex form of a random UUID, passed in here
     * as `uuidHex`, 39 characters in all.
     */
    function VectorDbName(uuidHex: string): (r: string)
      requires IsUuidHex(uuidHex)
      ensures IsSet(vectorDbName) ==> r == vectorDbName.value
      ensures !IsSet(vectorDbName) ==> r == VectorDbNamePrefix + uuidHex
      ensures !IsSet(vectorDbName) ==>
        && |r| == 39
        && r[..|VectorDbNamePrefix|] == VectorDbNamePrefix
        && IsUuidHex(r[|VectorDbNamePrefix|..])
    {
      if IsSet(vectorDbName) then vectorDbName.value
      else
        var r := VectorDbNamePrefix + uuidHex;
        assert r[|VectorDbNamePrefix|..] == uuidHex;
        r
    }

    /** The raw variable: no default, absent when unset, kept even when empty. */
    function VlmModelName(): (r: Option<string>)
      ensures r == vlmModelName
    {
      vlmModelName
    }

    /** The raw variable: no default, absent when unset, kept even when empty. */
    function OllamaApiUrlForGenerating(): (r: Option<string>)
      ensures r == ollamaApiUrlForGenerating
    {
      ollamaApiUrlForGenerating
    }

    /**
     * `int(MIN_OCR_TEXT_LENGTH)` with no default: unset fails like Python's
     * `TypeError`, empty or malformed text like its `ValueError`.
     */
    function MinOcrTextLength(): (r: Result<int, ConversionError>)
      ensures minOcrTextLength.None? ==> r == Failure(MissingValue)
      ensures !IsSet(minOcrTextLength) ==> r.Failure?
      ensures minOcrTextLength.Some? ==> (r.Success? <==> ParseInt(minOcrTextLength.value).Some?)
      ensures minOcrTextLength.Some? && r.Success? ==> ParseInt(minOcrTextLength.value) == Some(r.value)
      ensures minOcrTextLength.Some? && r.Failure? ==> r.error == InvalidLiteral(minOcrTextLength.value)
      ensures forall n: int :: minOcrTextLength == Some(Decimal(n)) ==> r == Success(n)
    {
      ToInt(minOcrTextLength)
    }

    /** The LlamaStack client's URL: the local prefix followed by a text that parses back to the port. */
    function BaseUrl(): (r: Result<string, ConversionError>)
      ensures r.Success? <==> LlamaStackPort().Success?
      ensures r.Success? ==>
        && |LocalhostPrefix| < |r.value|
        && r.value[..|LocalhostPrefix|] == LocalhostPrefix
        && r.value[|LocalhostPrefix|..] == Decimal(LlamaStackPort().value)
        && ParseInt(r.value[|LocalhostPrefix|..]) == Some(LlamaStackPort().value)
      ensures r.Failure? ==> r.error == LlamaStackPort().error
    {
      var port := LlamaStackPort();
      if port.Success? then Success(LocalhostUrl(port.value)) else Failure(port.error)
    }
  }

  /** Without a configured name, distinct UUIDs give distinct database names. */
  lemma GeneratedNamesDistinct(config: RAGServerConfig, u1: string, u2: string)
    requires !IsSet(config.vectorDbName) && IsUuidHex(u1) && IsUuidHex(u2) && u1 != u2
    ensures config.VectorDbName(u1) != config.VectorDbName(u2)
  {
    var n1, n2 := config.VectorDbName(u1), config.VectorDbName(u2);
    assert n1[|VectorDbNamePrefix|..] == u1 && n2[|VectorDbNamePrefix|..] == u2;
  }

  /** `RAGServerConfig()`: each field is `os.environ.get` of the variable of the same name. */
  function FromEnvironment(env: map<string, string>): (r: RAGServerConfig)
    ensures ReadFrom(env, "LLAMA_STACK_PORT", r.llamaStackPort)
    ensures ReadFrom(env, "INFERENCE_MODEL", r.inferenceModel)
    ensures ReadFrom(env, "EMBEDDING_MODEL", r.embeddingModel)
    ensures ReadFrom(env, "EMBEDDING_DIM", r.embeddingDim)
    ensures ReadFrom(env, "VECTOR_DB_PROVIDER", r.vectorDbProvider)
    ensures ReadFrom(env, "CHUNK_SIZE_IN_TOKENS", r.chunkSizeInTokens)
    ensures ReadFrom(env, "RAG_TOP_K", r.ragTopK)
    ensures ReadFrom(env, "VECTOR_DB_NAME", r.vectorDbName)
    ensures ReadFrom(env, "VLM_MODEL_NAME", r.vlmModelName)
    ensures ReadFrom(env, "OLLAMA_API_URL_FOR_GENERATING", r.ollamaApiUrlForGenerating)
    ensures ReadFrom(env, "MIN_OCR_TEXT_LENGTH", r.minOcrTextLength)
  {
    RAGServerConfig(
      Get(env, "LLAMA_STACK_PORT"),
      Get(env, "INFERENCE_MODEL"),
      Get(env, "EMBEDDING_MODEL"),
      Get(env, "EMBEDDING_DIM"),
      Get(env, "VECTOR_DB_PROVIDER"),
      Get(env, "CHUNK_SIZE_IN_TOKENS"),
      Get(env, "RAG_TOP_K"),
      Get(env, "VECTOR_DB_NAME"),
      Get(env, "VLM_MODEL_NAME"),
      Get(env, "OLLAMA_API_URL_FOR_GENERATING"),
      Get(env, "MIN_OCR_TEXT_LENGTH"))
  }

  /**
   * With none of its variables set, every defaulted getter gives its default,
   * the database name is generated, the vision-model settings are absent and
   * the OCR threshold cannot be read.
   */
  lemma UnsetEnvironmentDefaults(uuidHex: string)
    requires IsUuidHex(uuidHex)
    ensures var c := FromEnvironment(map[]);
      && c.LlamaStackPort() == Success(8321)
      && c.InferenceModel() == "ollama/llama3.2:3b-instruct-fp16"
      && c.EmbeddingModel() == "ollama/all-minilm:latest"
      && c.EmbeddingDim() == Success(384)
      && c.VectorDbProvider() == "milvus"
      && c.ChunkSizeInTokens() == Success(256)
      && c.RagTopK() == Success(3)
      && c.VectorDbName(uuidHex) == "rag-db-" + uuidHex
      && c.VlmModelName() == None
      && c.OllamaApiUrlForGenerating() == None
      && c.MinOcrTextLength() == Failure(MissingValue)
      && c.BaseUrl() == Success("http://localhost:8321")
  {
    var c := FromEnvironment(map[]);
    DefaultLocalhostUrl();
    assert c.BaseUrl() == Success(LocalhostUrl(DefaultLlamaStackPort));
  }

  /** An empty variable still counts as set for the getters without a default. */
  lemma EmptyVariablesWithoutDefault(env: map<string, string>)
    requires "VLM_MODEL_NAME" in env && env["VLM_MODEL_NAME"] == ""
    requires "MIN_OCR_TEXT_LENGTH" in env && env["MIN_OCR_TEXT_LENGTH"] == ""
    ensures FromEnvironment(env).VlmModelName() == Some("")
    ensures FromEnvironment(env).MinOcrTextLength() == Failure(InvalidLiteral(""))
  {
  }
}
