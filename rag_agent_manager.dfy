/**
 * The RAG agent manager (`RAGAgentManager`): it creates one agent bound to
 * one vector database, opens a session for it, and answers a query by folding
 * the agent's response stream into the concatenated answer text and a flag
 * telling whether the knowledge-search tool retrieved any chunk.
 */
module RagAgentManagement {
  import opened Results
  import opened Settings
  import opened RagServerConfiguration

  const RagToolGroupName := "builtin::rag"
  const KnowledgeSearchTool := "builtin::rag/knowledge_search"
  /** No relevance filtering: every retrieved chunk is kept. */
  const SimilarityThreshold: real := 0.0

  /** The retrieval tool group an agent is given. */
  datatype ToolGroup = ToolGroup(name: string, vectorDbIds: seq<string>, topK: int, similarityThreshold: real)

  datatype AgentConfig = AgentConfig(
    model: string,
    instructions: string,
    enableSessionPersistence: bool,
    toolgroups: seq<ToolGroup>)

  /** The service's agent object, known here by the configuration it was created with. */
  datatype Agent = Agent(config: AgentConfig)

  /**
   * The agent configuration `initialize_agent` builds: the configured
   * inference model, the given instructions, persistence disabled, and one
   * RAG tool group scoped to exactly the given database with the configured
   * top-k and a zero similarity threshold. Reading top-k can fail.
   */
  function BuildAgentConfig(config: RAGServerConfig, vectorDbId: string, instructions: string): (r: Result<AgentConfig, ConversionError>)
    ensures r.Failure? <==> config.RagTopK().Failure?
    ensures r.Failure? ==> r.error == config.RagTopK().error
    ensures r.Success? ==>
      && r.value.model == config.InferenceModel()
      && r.value.instructions == instructions
      && !r.value.enableSessionPersistence
      && |r.value.toolgroups| == 1
      && r.value.toolgroups[0].name == RagToolGroupName
      && r.value.toolgroups[0].vectorDbIds == [vectorDbId]
      && r.value.toolgroups[0].topK == config.RagTopK().value
      && r.value.toolgroups[0].similarityThreshold == 0.0
  {
    var model := config.InferenceModel();
    match config.RagTopK()
    case Failure(e) => Failure(e)
    case Success(topK) =>
      Success(AgentConfig(model, instructions, false, [ToolGroup(RagToolGroupName, [vectorDbId], topK, SimilarityThreshold)]))
  }

  /** A document the knowledge search returned (shown to the user only). */
  datatype RetrievedChunk = RetrievedChunk(content: string)

  /** A tool call reported in the stream; a call without results has `results == []`. */
  datatype ToolCall = ToolCall(name: string, results: seq<RetrievedChunk>)

  /**
   * One event of the response stream: the tool calls it reports (none when
   * it has no `tool_calls`) and the text of its payload delta, if it has one.
   */
  datatype StreamEvent = StreamEvent(toolCalls: seq<ToolCall>, textDelta: Option<string>)

  datatype QueryError = NotInitialized

  /** `(final_output, chunks_found)` as `make_query` returns them. */
  datatype QueryOutcome = QueryOutcome(finalOutput: Option<string>, chunksFound: bool)

  /** A knowledge-search call that retrieved at least one chunk. */
  predicate IsKnowledgeHit(call: ToolCall) {
    call.name == KnowledgeSearchTool && call.results != []
  }

  predicate AnyKnowledgeHit(calls: seq<ToolCall>) {
    exists j :: 0 <= j < |calls| && IsKnowledgeHit(calls[j])
  }

  /** The effect of one event on the two outputs. */
  function Absorb(acc: QueryOutcome, event: StreamEvent): QueryOutcome {
    QueryOutcome(
      match event.textDelta
      case None => acc.finalOutput
      case Some(text) => Some((if acc.finalOutput.Some? then acc.finalOutput.value else "") + text),
      acc.chunksFound || AnyKnowledgeHit(event.toolCalls))
  }

  /** The outputs after the events of `events`, in order, from `(None, False)`. */
  function FoldStream(events: seq<StreamEvent>): QueryOutcome
    decreases |events|
  {
    if events == [] then QueryOutcome(None, false)
    else Absorb(FoldStream(events[..|events| - 1]), events[|events| - 1])
  }

  /** The texts of all deltas, in stream order. */
  function Deltas(events: seq<StreamEvent>): seq<string>
    decreases |events|
  {
    if events == [] then []
    else
      var last := events[|events| - 1];
      Deltas(events[..|events| - 1]) + (if last.textDelta.Some? then [last.textDelta.value] else [])
  }

  function Concat(texts: seq<string>): string
    decreases |texts|
  {
    if texts == [] then "" else Concat(texts[..|texts| - 1]) + texts[|texts| - 1]
  }

  predicate HasDelta(events: seq<StreamEvent>) {
    exists i :: 0 <= i < |events| && events[i].textDelta.Some?
  }

  /** Some event reports a knowledge-search call that retrieved chunks. */
  predicate SearchHit(events: seq<StreamEvent>) {
    exists i :: 0 <= i < |events| && AnyKnowledgeHit(events[i].toolCalls)
  }

  /**
   * What the fold computes: no answer exactly when no event carried a text
   * delta, otherwise the concatenation of all delta texts in order; chunks
   * found exactly when some knowledge-search call retrieved something.
   */
  lemma {:induction false} FoldStreamMeaning(events: seq<StreamEvent>)
    ensures FoldStream(events).finalOutput.None? <==> !HasDelta(events)
    ensures FoldStream(events).finalOutput.Some? ==> FoldStream(events).finalOutput.value == Concat(Deltas(events))
    ensures FoldStream(events).chunksFound <==> SearchHit(events)
    decreases |events|
  {
    if events != [] {
      var front, last := events[..|events| - 1], events[|events| - 1];
      FoldStreamMeaning(front);
      assert forall i :: 0 <= i < |front| ==> front[i] == events[i];
      assert HasDelta(events) <==> HasDelta(front) || last.textDelta.Some?;
      assert SearchHit(events) <==> SearchHit(front) || AnyKnowledgeHit(last.toolCalls);
      if FoldStream(front).finalOutput.None? && last.textDelta.Some? {
        assert Deltas(front) == [] by {
          if Deltas(front) != [] {
            DeltasWitness(front);
          }
        }
        assert Deltas(events) == [last.textDelta.value];
        assert Concat([last.textDelta.value]) == Concat([]) + last.textDelta.value;
      } else if last.textDelta.Some? {
        var ds := Deltas(events);
        assert ds == Deltas(front) + [last.textDelta.value];
        assert ds[..|ds| - 1] == Deltas(front);
        assert Concat(ds) == Concat(Deltas(front)) + last.textDelta.value;
        assert FoldStream(events).finalOutput.value == FoldStream(front).finalOutput.value + last.textDelta.value;
      } else {
        assert Deltas(events) == Deltas(front) + [];
        assert Deltas(front) + [] == Deltas(front);
      }
    }
  }

  /** A non-empty list of deltas comes from some event with a delta. */
  lemma {:induction false} DeltasWitness(events: seq<StreamEvent>)
    requires Deltas(events) != []
    ensures HasDelta(events)
    decreases |events|
  {
    var front, last := events[..|events| - 1], events[|events| - 1];
    if last.textDelta.None? {
      DeltasWitness(front);
      var i :| 0 <= i < |front| && front[i].textDelta.Some?;
      assert events[i] == front[i];
    } else {
      assert events[|events| - 1].textDelta.Some?;
    }
  }

  /** Once chunks have been found, no later event resets the flag. */
  lemma {:induction false} ChunksFoundMonotone(events: seq<StreamEvent>, later: seq<StreamEvent>)
    requires FoldStream(events).chunksFound
    ensures FoldStream(events + later).chunksFound
    decreases |later|
  {
    if later == [] {
      assert events + later == events;
    } else {
      var front := later[..|later| - 1];
      ChunksFoundMonotone(events, front);
      assert (events + later)[..|events + later| - 1] == events + front;
    }
  }

  /** A single empty delta already makes the answer present, as `""` rather than `None`. */
  lemma EmptyDeltaAnswers(events: seq<StreamEvent>)
    requires forall i :: 0 <= i < |events| ==> events[i].textDelta.None? || events[i].textDelta == Some("")
    requires exists i :: 0 <= i < |events| && events[i].textDelta == Some("")
    ensures FoldStream(events).finalOutput == Some("")
  {
    FoldStreamMeaning(events);
    EmptyDeltasConcat(events);
  }

  lemma {:induction false} EmptyDeltasConcat(events: seq<StreamEvent>)
    requires forall i :: 0 <= i < |events| ==> events[i].textDelta.None? || events[i].textDelta == Some("")
    ensures Concat(Deltas(events)) == ""
    decreases |events|
  {
    if events != [] {
      var front := events[..|events| - 1];
      assert forall i :: 0 <= i < |front| ==> front[i] == events[i];
      EmptyDeltasConcat(front);
      var ds := Deltas(events);
      if events[|events| - 1].textDelta.Some? {
        assert ds == Deltas(front) + [""];
        assert ds[..|ds| - 1] == Deltas(front);
      } else {
        assert ds == Deltas(front);
      }
    }
  }

  class RAGAgentManager {
    const ragServerConfig: RAGServerConfig
    var ragAgent: Option<Agent>
    var sessionId: Option<string>

    /** A fresh manager has neither an agent nor a session. */
    constructor (ragServerConfig: RAGServerConfig)
      ensures this.ragServerConfig == ragServerConfig
      ensures ragAgent == None && sessionId == None
    {
      this.ragServerConfig := ragServerConfig;
      ragAgent := None;
      sessionId := None;
    }

    /** The guard of `make_query`: an agent and a (non-empty) session id are both set. */
    predicate Initialized()
      reads this
    {
      ragAgent.Some? && sessionId.Some? && sessionId.value != ""
    }

    /**
     * `initialize_agent`: builds the agent configuration, creates the agent
     * and opens a session, whose id the service returns as `newSessionId`.
     * If top-k cannot be read, nothing changes and the error is raised.
     */
    method InitializeAgent(vectorDbId: string, agentInstructions: string, newSessionId: string)
      returns (r: Result<(), ConversionError>)
      modifies this
      ensures r.Success? <==> ragServerConfig.RagTopK().Success?
      ensures r.Failure? ==>
        && r.error == ragServerConfig.RagTopK().error
        && ragAgent == old(ragAgent) && sessionId == old(sessionId)
      ensures r.Success? ==>
        && ragAgent == Some(Agent(BuildAgentConfig(ragServerConfig, vectorDbId, agentInstructions).value))
        && sessionId == Some(newSessionId)
    {
      var config := BuildAgentConfig(ragServerConfig, vectorDbId, agentInstructions);
      if config.Failure? {
        return Failure(config.error);
      }
      ragAgent := Some(Agent(config.value));
      sessionId := Some(newSessionId);
      r := Success(());
    }

    /**
     * `make_query`: fails before looking at the stream unless initialised;
     * otherwise walks the events the service returned for `userPrompt`,
     * appending every delta text to the answer and raising the chunk flag on
     * every knowledge-search call with results.
     */
    method MakeQuery(userPrompt: string, stream: seq<StreamEvent>) returns (r: Result<QueryOutcome, QueryError>)
      ensures r.Failure? <==> !Initialized()
      ensures r.Failure? ==> r.error == NotInitialized
      ensures r.Success? ==> r.value == FoldStream(stream)
      ensures r.Success? ==> (r.value.finalOutput.None? <==> !HasDelta(stream))
      ensures r.Success? && r.value.finalOutput.Some? ==> r.value.finalOutput.value == Concat(Deltas(stream))
      ensures r.Success? ==> (r.value.chunksFound <==> SearchHit(stream))
    {
      if !Initialized() {
        return Failure(NotInitialized);
      }
      var finalOutput: Option<string> := None;
      var chunksFound := false;
      var i := 0;
      while i < |stream|
        invariant 0 <= i <= |stream|
        invariant QueryOutcome(finalOutput, chunksFound) == FoldStream(stream[..i])
      {
        var event := stream[i];
        var j := 0;
        while j < |event.toolCalls|
          invariant 0 <= j <= |event.toolCalls|
          invariant chunksFound == (FoldStream(stream[..i]).chunksFound || AnyKnowledgeHit(event.toolCalls[..j]))
        {
          var call := event.toolCalls[j];
          if call.name == KnowledgeSearchTool {
            if call.results != [] {
              chunksFound := true;
            }
          }
          assert event.toolCalls[..j + 1] == event.toolCalls[..j] + [call];
          assert IsKnowledgeHit(call) ==> event.toolCalls[..j + 1][j] == call;
          j := j + 1;
        }
        assert event.toolCalls[..j] == event.toolCalls;
        if event.textDelta.Some? {
          if finalOutput.None? {
            finalOutput := Some("");
          }
          finalOutput := Some(finalOutput.value + event.textDelta.value);
        }
        assert stream[..i + 1][..i] == stream[..i];
        i := i + 1;
      }
      assert stream[..i] == stream;
      FoldStreamMeaning(stream);
      r := Success(QueryOutcome(finalOutput, chunksFound));
    }
  }
}
