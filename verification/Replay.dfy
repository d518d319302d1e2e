/** Replay of one packet's archived evidence. */
module Replay {
  import opened Wrappers
  import opened Evidence
  import opened EvidenceLogs
  import opened EvidenceRuns

  datatype Anomaly =
    | MissingExecutionEvents | MissingPlanCreated | MissingTerminalResult | MultipleTerminalResults
    | TerminalResultNotLast

  datatype EpisodeView = EpisodeView(identity: Identity, workerId: Option<string>, types: seq<PayloadType>,
                                     terminalStatus: Option<Status>)

  datatype ReplayError = PacketNotFound | UndecodableEvidence | MixedIdentities | MixedWorkers

  function TypesOf(log: Log): seq<PayloadType>
    requires LogDecodes(log)
  {
    seq(|log|, i requires 0 <= i < |log| => TypeOf(PayloadOf(log[i])))
  }

  /** `query_packet_episode`: a view of a non-empty log of one identity and one worker. */
  function ViewOf(log: Log): Result<EpisodeView, ReplayError> {
    if !LogDecodes(log) then Err(UndecodableEvidence)
    else if log == [] then Err(PacketNotFound)
    else if exists i :: 0 <= i < |log| && IdentityOf(log[i]) != IdentityOf(log[0]) then Err(MixedIdentities)
    else if exists i :: 0 <= i < |log| && log[i].workerId != log[0].workerId then Err(MixedWorkers)
    else Ok(EpisodeView(IdentityOf(log[0]), log[0].workerId, TypesOf(log), LastResultStatus(log)))
  }

  function LastResultStatus(log: Log): Option<Status> {
    if log == [] then None
    else
      var last := log[|log| - 1];
      if IsResult(last) then Some(PayloadOf(last).resultStatus) else LastResultStatus(log[..|log| - 1])
  }

  /** Why a packet has no view: the first of these that holds. */
  lemma {:induction false} ViewIsRefusedExactlyWhen(log: Log)
    ensures var v := ViewOf(log); var decodes := forall i :: 0 <= i < |log| ==> Extract(log[i]).Ok?;
            && (v == Err(PacketNotFound) <==> log == [])
            && (v == Err(UndecodableEvidence) <==> !decodes)
            && (v == Err(MixedIdentities) <==>
                  decodes && exists i :: 0 <= i < |log| && IdentityOf(log[i]) != IdentityOf(log[0]))
            && (v == Err(MixedWorkers) <==>
                  && decodes && (forall i :: 0 <= i < |log| ==> IdentityOf(log[i]) == IdentityOf(log[0]))
                  && exists i :: 0 <= i < |log| && log[i].workerId != log[0].workerId)
  {
    hide Extract, LastResultStatus, TypesOf;
  }

  /** What a view shows of its log: identity and worker of every event, and the event types in order. */
  lemma {:induction false} ViewShows(log: Log)
    requires ViewOf(log).Ok?
    ensures var v := ViewOf(log).value;
            && |v.types| == |log|
            && forall i :: 0 <= i < |log| ==>
                 && Extract(log[i]).Ok? && v.identity == IdentityOf(log[i]) && v.workerId == log[i].workerId
                 && v.types[i] == TypeOf(Extract(log[i]).value)
  {
    hide Extract, LastResultStatus;
  }

  /** A view shows the status of the last result, if its log has one. */
  lemma {:induction false} ViewShowsTheLastResult(log: Log, i: int)
    requires ViewOf(log).Ok? && -1 <= i < |log| && forall j :: i < j < |log| ==> !RecordsResult(log[j])
    requires i >= 0 ==> RecordsResult(log[i])
    ensures ViewOf(log).value.terminalStatus == if i < 0 then None else Some(PayloadOf(log[i]).resultStatus)
  {
    forall j | 0 <= j < |log| ensures RecordsResult(log[j]) <==> IsResult(log[j]) {
      PlanTypes(log[j]);
    }
    LastResultIsLast(log);
    hide Extract, LastResultStatus, RecordsResult, IsResult;
  }

  lemma {:induction false} LastResultIsLast(log: Log)
    ensures LastResultStatus(log) == None <==> forall i :: 0 <= i < |log| ==> !IsResult(log[i])
    ensures forall i :: 0 <= i < |log| && IsResult(log[i]) && (forall j :: i < j < |log| ==> !IsResult(log[j])) ==>
              LastResultStatus(log) == Some(PayloadOf(log[i]).resultStatus)
  {
    hide Extract;
    if log != [] {
      var front := log[..|log| - 1];
      LastResultIsLast(front);
      assert forall i :: 0 <= i < |front| ==> front[i] == log[i];
    }
  }

  function Count(types: seq<PayloadType>): nat {
    if types == [] then 0
    else Count(types[..|types| - 1]) + if types[|types| - 1].ResultRecorded? then 1 else 0
  }

  /** `_validate_episode`: the anomalies of an episode's event types. */
  method Anomalies(types: seq<PayloadType>) returns (anomalies: seq<Anomaly>)
    ensures MissingExecutionEvents in anomalies <==> types == []
    ensures MissingPlanCreated in anomalies <==> PlanCreated !in types
    ensures MissingTerminalResult in anomalies <==> ResultRecorded !in types
    ensures MultipleTerminalResults in anomalies <==>
              exists i, j :: 0 <= i < j < |types| && types[i].ResultRecorded? && types[j].ResultRecorded?
    ensures TerminalResultNotLast in anomalies <==> types != [] && types[|types| - 1] != ResultRecorded
    ensures anomalies == [] <==> WholeEpisode(types)
  {
    anomalies := [];
    if types == [] {
      anomalies := anomalies + [MissingExecutionEvents];
    }
    if PlanCreated !in types {
      anomalies := anomalies + [MissingPlanCreated];
    }
    var resultCount := 0;
    for i := 0 to |types|
      invariant resultCount == Count(types[..i])
    {
      assert types[..i + 1][..i] == types[..i];
      if types[i].ResultRecorded? {
        resultCount := resultCount + 1;
      }
    }
    assert types[..|types|] == types;
    CountMeaning(types);
    if resultCount == 0 {
      anomalies := anomalies + [MissingTerminalResult];
    } else if resultCount > 1 {
      anomalies := anomalies + [MultipleTerminalResults];
    }
    if types != [] && types[|types| - 1] != ResultRecorded {
      anomalies := anomalies + [TerminalResultNotLast];
    }
  }

  /** What an episode without anomalies is: a plan was created, and the last event is its only result. */
  predicate WholeEpisode(types: seq<PayloadType>) {
    && PlanCreated in types
    && forall i :: 0 <= i < |types| ==> (types[i].ResultRecorded? <==> i == |types| - 1)
  }

  lemma {:induction false} CountMeaning(types: seq<PayloadType>)
    ensures Count(types) == 0 <==> ResultRecorded !in types
    ensures Count(types) > 1 <==>
            exists i, j :: 0 <= i < j < |types| && types[i].ResultRecorded? && types[j].ResultRecorded?
  {
    if types != [] {
      var front := types[..|types| - 1];
      CountMeaning(front);
      assert forall i :: 0 <= i < |front| ==> front[i] == types[i];
      if Count(types) > 1 && Count(front) <= 1 {
        var i :| 0 <= i < |front| && front[i] == ResultRecorded;
        assert types[i].ResultRecorded? && types[|types| - 1].ResultRecorded?;
      } else if Count(front) > 1 {
        var i, j :| 0 <= i < j < |front| && front[i].ResultRecorded? && front[j].ResultRecorded?;
        assert types[i].ResultRecorded? && types[j].ResultRecorded?;
      } else if i: int, j: int :| 0 <= i < j < |types| && types[i].ResultRecorded? && types[j].ResultRecorded? {
        assert front[i] == ResultRecorded;
        assert j < |front| ==> front[j].ResultRecorded?;
      }
    }
  }

  /** Replaying any packet of any reachable store: the log decodes, its identities agree, and no anomaly is a
      second result. */
  lemma {:induction false} ReachableReplay(events: seq<RuntimeEvent>, p: string)
    requires p in After(events)
    ensures LogDecodes(After(events)[p])
    ensures ViewOf(After(events)[p]).Err? ==> ViewOf(After(events)[p]).error in {PacketNotFound, MixedWorkers}
    ensures var types := TypesOf(After(events)[p]);
            forall i, j :: 0 <= i < j < |types| ==> !(types[i].ResultRecorded? && types[j].ResultRecorded?)
  {
    hide Extract, ResultIsOwned;
    PacketLogInvariant(events);
    var log := After(events)[p];
    assert GoodLog(p, log);
    var types := TypesOf(log);
    forall i, j | 0 <= i < j < |types|
      ensures !(types[i].ResultRecorded? && types[j].ResultRecorded?)
    {
      TypeOfResult(log[i]);
      TypeOfResult(log[j]);
    }
  }

  lemma {:induction false} TypeOfResult(e: RuntimeEvent)
    requires Decodes(e)
    ensures TypeOf(PayloadOf(e)).ResultRecorded? <==> IsResult(e)
  {
  }
}
