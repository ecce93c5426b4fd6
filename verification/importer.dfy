/**
 * The importer's workflow: check whether the package is already on the server,
 * upload it through curl, update its metadata (retrying while the server
 * settles), activate the application's test policy with the new package, and
 * finally publish a summary for the calling pipeline.
 *
 * Every answer the outside world gives (HTTP statuses, the upload reply, the
 * fetched policy, the policy update reply) is an input, collected in
 * `Responses`; every request the importer makes is recorded, in order, as a
 * `Call`.
 */
module Importer {
  import opened PyText
  import opened Jamf
  import opened Retry
  import opened Policy

  /** What the server and the curl process answer during one run. */
  datatype Responses = Responses(
    lookupStatus: nat,            // GET packages/name/<name>
    curlExit: int,                // return code of the curl upload; negative when a signal killed it
    uploadId: Option<string>,     // text of the upload reply's `id` element, if there is one
    putStatuses: seq<nat>,        // status of each successive metadata PUT
    policyStatus: nat,            // GET policies/name/TEST-<title>
    policyDoc: PolicyDoc,         // the policy document that GET returns
    policyPutStatus: nat,         // PUT policies/id/<id>
    policyPutId: Option<string>)  // text of that PUT reply's `id` element, if there is one

  /** How `upload` ends: the sentinel 0, the activated policy's id, or an exception. */
  datatype Outcome = AlreadyPresent | Activated(policyId: Option<string>) | Failed(error: Error)

  datatype Run = Run(outcome: Outcome, calls: seq<Call>)

  /** The run gets past the upload: the package was absent, curl exited 0 and the id was not empty. */
  predicate Uploads(resp: Responses)
  {
    resp.lookupStatus != Found && resp.curlExit == 0 && resp.uploadId != Some("")
  }

  /** The metadata PUT of a run whose upload returned `resp.uploadId`. */
  function MetadataPut(cfg: Settings, today: string, resp: Responses): Call
  {
    var packid := Show(resp.uploadId);
    PutPackage(PackageUrl(cfg, packid), MetadataBody(packid, today))
  }

  /**
   * What `upload` does, stage by stage: the outcome it reaches and the calls it
   * makes on the way. `today` is the date text that goes into the package notes.
   */
  function Workflow(cfg: Settings, pkg: Package, today: string, resp: Responses): (run: Run)
    requires |resp.putStatuses| >= MaxAttempts
    ensures run.outcome.AlreadyPresent? <==> resp.lookupStatus == Found
    ensures |run.calls| >= 1 && run.calls[0] == GetPackage(LookupUrl(cfg, pkg.name))
    ensures run.outcome.Activated? ==> Uploads(resp) && run.calls[|run.calls| - 1].PutPolicy?
  {
    var lookup := GetPackage(LookupUrl(cfg, pkg.name));
    if resp.lookupStatus == Found then Run(AlreadyPresent, [lookup])
    else
      var sent := [lookup, Curl(CurlCommand(cfg, pkg.name, pkg.path))];
      if resp.curlExit != 0 then Run(Failed(CurlFailed(resp.curlExit)), sent)
      else if resp.uploadId == Some("") then Run(Failed(EmptyUploadId(UploadUrl(cfg))), sent)
      else
        var packid := Show(resp.uploadId);
        var retry := RetryOutcome(resp.putStatuses);
        var updated := sent + AttemptCalls(MetadataPut(cfg, today, resp), retry.attempts);
        if !retry.created then Run(Failed(PackageUpdateFailed(retry.lastStatus)), updated)
        else
          var lookupUrl := PolicyLookupUrl(cfg, pkg.title);
          var fetched := updated + [GetPolicy(lookupUrl)];
          if resp.policyStatus != Found then Run(Failed(PolicyNotFound(lookupUrl, resp.policyStatus)), fetched)
          else match Rewritten(resp.policyDoc, packid, pkg.name)
            case Missing(path) => Run(Failed(MissingPolicyNode(path)), fetched)
            case Edited(doc) =>
              var url := PolicyUrl(cfg, Show(if GeneralIdPath in doc then Some(doc[GeneralIdPath]) else None));
              var pushed := fetched + [PutPolicy(url, doc)];
              if resp.policyPutStatus != Created then Run(Failed(PolicyUpdateFailed(url, resp.policyPutStatus)), pushed)
              else Run(Activated(resp.policyPutId), pushed)
  }

  /**
   * `JPCImporter.upload`. The policy document is edited in place in an element
   * tree; the metadata PUT goes through the retry loop.
   */
  method Upload(cfg: Settings, pkg: Package, today: string, resp: Responses)
    returns (outcome: Outcome, calls: seq<Call>)
    requires |resp.putStatuses| >= MaxAttempts
    ensures Run(outcome, calls) == Workflow(cfg, pkg, today, resp)
  {
    calls := [GetPackage(LookupUrl(cfg, pkg.name))];
    if resp.lookupStatus == Found {
      return AlreadyPresent, calls;
    }

    calls := calls + [Curl(CurlCommand(cfg, pkg.name, pkg.path))];
    if resp.curlExit != 0 {
      return Failed(CurlFailed(resp.curlExit)), calls;
    }
    var packid := resp.uploadId;
    if packid == Some("") {
      return Failed(EmptyUploadId(UploadUrl(cfg))), calls;
    }

    var data := MetadataBody(Show(packid), today);
    var url := PackageUrl(cfg, Show(packid));
    var retry, sleeps, attempts := UpdatePackage(PutPackage(url, data), resp.putStatuses);
    calls := calls + attempts;
    if !retry.created {
      return Failed(PackageUpdateFailed(retry.lastStatus)), calls;
    }

    url := PolicyLookupUrl(cfg, pkg.title);
    calls := calls + [GetPolicy(url)];
    if resp.policyStatus != Found {
      return Failed(PolicyNotFound(url, resp.policyStatus)), calls;
    }
    var root := new PolicyTree(resp.policyDoc);
    var missing := root.Activate(Show(packid), pkg.name);
    if missing.Some? {
      return Failed(MissingPolicyNode(missing.value)), calls;
    }
    url := PolicyUrl(cfg, Show(root.FindText(GeneralIdPath)));
    calls := calls + [PutPolicy(url, root.nodes)];
    if resp.policyPutStatus != Created {
      return Failed(PolicyUpdateFailed(url, resp.policyPutStatus)), calls;
    }
    outcome := Activated(resp.policyPutId);
  }

  /**
   * A package the server already knows stops the run after the lookup: no upload,
   * no metadata PUT, no policy lookup and no policy PUT. Running the importer again
   * for a package it has uploaded is therefore harmless.
   */
  lemma AlreadyPresentShortCircuits(cfg: Settings, pkg: Package, today: string, resp: Responses)
    requires |resp.putStatuses| >= MaxAttempts
    requires resp.lookupStatus == Found
    ensures Workflow(cfg, pkg, today, resp) == Run(AlreadyPresent, [GetPackage(LookupUrl(cfg, pkg.name))])
  {
  }

  /**
   * An empty id in the upload reply fails the run with a message naming the upload
   * endpoint, and nothing is requested after the upload.
   */
  lemma EmptyUploadIdStops(cfg: Settings, pkg: Package, today: string, resp: Responses)
    requires |resp.putStatuses| >= MaxAttempts
    requires resp.lookupStatus != Found && resp.curlExit == 0 && resp.uploadId == Some("")
    ensures var run := Workflow(cfg, pkg, today, resp);
      && run.outcome.Failed?
      && Contains(Message(run.outcome.error), UploadUrl(cfg))
      && run.calls == [GetPackage(LookupUrl(cfg, pkg.name)), Curl(CurlCommand(cfg, pkg.name, pkg.path))]
  {
    MessageNamesCause(EmptyUploadId(UploadUrl(cfg)));
  }

  /** A curl process that exits non-zero fails the run; nothing is requested after it. */
  lemma CurlFailureStops(cfg: Settings, pkg: Package, today: string, resp: Responses)
    requires |resp.putStatuses| >= MaxAttempts
    requires resp.lookupStatus != Found && resp.curlExit != 0
    ensures Workflow(cfg, pkg, today, resp) ==
      Run(Failed(CurlFailed(resp.curlExit)),
          [GetPackage(LookupUrl(cfg, pkg.name)), Curl(CurlCommand(cfg, pkg.name, pkg.path))])
  {
  }

  /**
   * A reply without an `id` element is not caught by the empty-id check: the run
   * goes on and addresses the metadata update to the package id "None".
   */
  lemma MissingUploadIdNotRejected(cfg: Settings, pkg: Package, today: string, resp: Responses)
    requires |resp.putStatuses| >= MaxAttempts
    requires resp.lookupStatus != Found && resp.curlExit == 0 && resp.uploadId == None
    ensures var run := Workflow(cfg, pkg, today, resp);
      |run.calls| >= 3 && run.calls[2] == PutPackage(PackageUrl(cfg, "None"), MetadataBody("None", today))
  {
    var run := Workflow(cfg, pkg, today, resp);
    var retry := RetryOutcome(resp.putStatuses);
    var attempts := AttemptCalls(MetadataPut(cfg, today, resp), retry.attempts);
    AttemptAccounting(MetadataPut(cfg, today, resp), retry.attempts);
    var updated := [GetPackage(LookupUrl(cfg, pkg.name)), Curl(CurlCommand(cfg, pkg.name, pkg.path))] + attempts;
    assert run.calls[..|updated|] == updated;
    assert updated[2] == attempts[0];
  }

  /**
   * The calls of a run that gets past the upload: the lookup and the upload, the
   * retry loop's calls, then nothing but policy calls.
   */
  lemma UploadedRunShape(cfg: Settings, pkg: Package, today: string, resp: Responses)
    requires |resp.putStatuses| >= MaxAttempts
    requires Uploads(resp)
    ensures var run := Workflow(cfg, pkg, today, resp);
      var attempts := AttemptCalls(MetadataPut(cfg, today, resp), RetryOutcome(resp.putStatuses).attempts);
      && |run.calls| >= 2 + |attempts|
      && run.calls[..2] == [GetPackage(LookupUrl(cfg, pkg.name)), Curl(CurlCommand(cfg, pkg.name, pkg.path))]
      && run.calls[2..2 + |attempts|] == attempts
      && (forall c :: c in run.calls[2 + |attempts|..] ==> c.GetPolicy? || c.PutPolicy?)
  {
  }

  /**
   * Once the package is uploaded, the metadata PUT, always the same request to
   * `packages/id/<id>`, is made between 1 and 11 times, with one pause of the fixed
   * delay after every attempt but the last.
   */
  lemma MetadataRetries(cfg: Settings, pkg: Package, today: string, resp: Responses)
    requires |resp.putStatuses| >= MaxAttempts
    requires Uploads(resp)
    ensures var run := Workflow(cfg, pkg, today, resp);
      && CountPuts(run.calls) == RetryOutcome(resp.putStatuses).attempts
      && CountPauses(run.calls) == CountPuts(run.calls) - 1
      && (forall c :: c in run.calls && c.PutPackage? ==> c == MetadataPut(cfg, today, resp))
      && (forall c :: c in run.calls && c.Pause? ==> c.units == RetryDelay)
  {
    var calls := Workflow(cfg, pkg, today, resp).calls;
    var put := MetadataPut(cfg, today, resp);
    var n := RetryOutcome(resp.putStatuses).attempts;
    UploadedRunShape(cfg, pkg, today, resp);
    RetryCallsCounted(calls, put, n);
  }

  /** Counting over a trace made of two non-retry calls, a retry loop and policy calls. */
  lemma RetryCallsCounted(calls: seq<Call>, put: Call, n: nat)
    requires n >= 1 && put.PutPackage?
    requires |calls| >= 2 + |AttemptCalls(put, n)|
    requires forall c :: c in calls[..2] ==> c.GetPackage? || c.Curl?
    requires calls[2..2 + |AttemptCalls(put, n)|] == AttemptCalls(put, n)
    requires forall c :: c in calls[2 + |AttemptCalls(put, n)|..] ==> c.GetPolicy? || c.PutPolicy?
    ensures CountPuts(calls) == n && CountPauses(calls) == n - 1
    ensures forall c :: c in calls && c.PutPackage? ==> c == put
    ensures forall c :: c in calls && c.Pause? ==> c == Pause(RetryDelay)
  {
    var attempts := AttemptCalls(put, n);
    AttemptAccounting(put, n);
    var sent := calls[..2];
    var tail := calls[2 + |attempts|..];
    assert calls == sent + attempts + tail;
    CountsAppend(sent + attempts, tail);
    CountsAppend(sent, attempts);
    PoliciesCountNothing(tail);
    var first := sent[..1];
    assert first in [first] && sent[0] in sent && sent[1] in sent;
    assert first[..0] == [];
    assert CountPuts(first) == 0 && CountPauses(first) == 0;
    assert CountPuts(sent) == 0 && CountPauses(sent) == 0;
    forall c | c in calls && (c.PutPackage? || c.Pause?)
      ensures c in attempts
    {
      assert c !in sent && c !in tail;
    }
  }

  /**
   * The metadata update fails the run exactly when none of the first eleven PUTs
   * answers 201, and the error carries the eleventh status; a run that stops before
   * eleven attempts stopped at a 201.
   */
  lemma MetadataUpdateFailsIff(cfg: Settings, pkg: Package, today: string, resp: Responses)
    requires |resp.putStatuses| >= MaxAttempts
    requires Uploads(resp)
    ensures Workflow(cfg, pkg, today, resp).outcome == Failed(PackageUpdateFailed(resp.putStatuses[MaxAttempts - 1]))
      <==> forall i :: 0 <= i < MaxAttempts ==> resp.putStatuses[i] != Created
    ensures RetryOutcome(resp.putStatuses).attempts < MaxAttempts ==>
      resp.putStatuses[RetryOutcome(resp.putStatuses).attempts - 1] == Created
  {
  }

  lemma {:induction false} PoliciesCountNothing(calls: seq<Call>)
    requires forall c :: c in calls ==> c.GetPolicy? || c.PutPolicy?
    ensures CountPuts(calls) == 0 && CountPauses(calls) == 0
  {
    if calls != [] {
      var init := calls[..|calls| - 1];
      assert forall c :: c in init ==> c in calls;
      assert calls[|calls| - 1] in calls;
      PoliciesCountNothing(init);
    }
  }

  /**
   * The test policy is looked up as `policies/name/TEST-<title>`. A lookup that does
   * not answer 200 fails the run with a message naming that URL and the status, and
   * the policy is not written.
   */
  lemma PolicyLookupFailureIsFatal(cfg: Settings, pkg: Package, today: string, resp: Responses)
    requires |resp.putStatuses| >= MaxAttempts
    requires Uploads(resp) && RetryOutcome(resp.putStatuses).created
    requires resp.policyStatus != Found
    ensures var run := Workflow(cfg, pkg, today, resp);
      var url := PolicyLookupUrl(cfg, pkg.title);
      && run.outcome == Failed(PolicyNotFound(url, resp.policyStatus))
      && Contains(Message(run.outcome.error), url)
      && Contains(Message(run.outcome.error), Decimal(resp.policyStatus))
      && run.calls[|run.calls| - 1] == GetPolicy(url)
      && forall c :: c in run.calls ==> !c.PutPolicy?
  {
    var url := PolicyLookupUrl(cfg, pkg.title);
    MessageNamesCause(PolicyNotFound(url, resp.policyStatus));
    var retry := RetryOutcome(resp.putStatuses);
    AttemptAccounting(MetadataPut(cfg, today, resp), retry.attempts);
  }

  /**
   * Eleven refused metadata updates fail the run with the eleventh status. The
   * eleventh PUT is the last call: there is no policy lookup and no policy PUT.
   */
  lemma MetadataExhaustionStops(cfg: Settings, pkg: Package, today: string, resp: Responses)
    requires |resp.putStatuses| >= MaxAttempts
    requires Uploads(resp)
    requires forall i :: 0 <= i < MaxAttempts ==> resp.putStatuses[i] != Created
    ensures var run := Workflow(cfg, pkg, today, resp);
      var status := resp.putStatuses[MaxAttempts - 1];
      && run.outcome == Failed(PackageUpdateFailed(status))
      && Contains(Message(run.outcome.error), Decimal(status))
      && |run.calls| == 2 + 2 * MaxAttempts - 1
      && run.calls[|run.calls| - 1] == MetadataPut(cfg, today, resp)
      && forall c :: c in run.calls ==> !c.GetPolicy? && !c.PutPolicy?
  {
    var put := MetadataPut(cfg, today, resp);
    GivesUpAfterEleven(resp.putStatuses);
    AttemptAccounting(put, MaxAttempts);
    assert AttemptCalls(put, MaxAttempts) == AttemptCalls(put, MaxAttempts - 1) + [Pause(RetryDelay), put];
    MessageNamesCause(PackageUpdateFailed(resp.putStatuses[MaxAttempts - 1]));
  }

  /**
   * A fetched policy that lacks one of the three nodes fails the run when the
   * first absent one (package id, then `general/enabled`, then package name) is
   * assigned. The policy lookup is the last call: the policy is never PUT.
   */
  lemma MissingNodeStops(cfg: Settings, pkg: Package, today: string, resp: Responses)
    requires |resp.putStatuses| >= MaxAttempts
    requires Uploads(resp) && RetryOutcome(resp.putStatuses).created && resp.policyStatus == Found
    requires !(PkgIdPath in resp.policyDoc && EnabledPath in resp.policyDoc && PkgNamePath in resp.policyDoc)
    ensures var run := Workflow(cfg, pkg, today, resp);
      var doc := resp.policyDoc;
      var path := if PkgIdPath !in doc then PkgIdPath else if EnabledPath !in doc then EnabledPath else PkgNamePath;
      && run.outcome == Failed(MissingPolicyNode(path))
      && run.calls[|run.calls| - 1] == GetPolicy(PolicyLookupUrl(cfg, pkg.title))
      && forall c :: c in run.calls ==> !c.PutPolicy?
  {
    AttemptAccounting(MetadataPut(cfg, today, resp), RetryOutcome(resp.putStatuses).attempts);
  }

  /**
   * A policy PUT that does not answer 201 fails the run with a message naming the
   * policy's URL, `policies/id/<general/id of the fetched policy>`, and the status.
   * That PUT, of the rewritten policy, is the last call.
   */
  lemma PolicyUpdateFailureIsFatal(cfg: Settings, pkg: Package, today: string, resp: Responses)
    requires |resp.putStatuses| >= MaxAttempts
    requires Uploads(resp) && RetryOutcome(resp.putStatuses).created && resp.policyStatus == Found
    requires PkgIdPath in resp.policyDoc && EnabledPath in resp.policyDoc && PkgNamePath in resp.policyDoc
    requires resp.policyPutStatus != Created
    ensures var run := Workflow(cfg, pkg, today, resp);
      var doc := resp.policyDoc;
      var url := PolicyUrl(cfg, Show(if GeneralIdPath in doc then Some(doc[GeneralIdPath]) else None));
      && run.outcome == Failed(PolicyUpdateFailed(url, resp.policyPutStatus))
      && Contains(Message(run.outcome.error), url)
      && Contains(Message(run.outcome.error), Decimal(resp.policyPutStatus))
      && run.calls[|run.calls| - 1] == PutPolicy(url, Rewritten(doc, Show(resp.uploadId), pkg.name).doc)
  {
    var doc := resp.policyDoc;
    GeneralIdKept(doc, Show(resp.uploadId), pkg.name);
    var url := PolicyUrl(cfg, Show(if GeneralIdPath in doc then Some(doc[GeneralIdPath]) else None));
    MessageNamesCause(PolicyUpdateFailed(url, resp.policyPutStatus));
  }

  /**
   * Every metadata PUT of a run is addressed to `packages/id/<id>` for the very id
   * its body names, and its body carries the run's date, provided the upload id
   * holds no '<' (server ids are numeric).
   */
  lemma MetadataAddressedToItsId(cfg: Settings, pkg: Package, today: string, resp: Responses)
    requires |resp.putStatuses| >= MaxAttempts
    requires '<' !in Show(resp.uploadId)
    ensures forall c :: c in Workflow(cfg, pkg, today, resp).calls && c.PutPackage? ==>
      && ParseMetadata(c.body).Some?
      && c.url == PackageUrl(cfg, ParseMetadata(c.body).value.0)
      && ParseMetadata(c.body).value.1 == today
  {
    if Uploads(resp) {
      MetadataRetries(cfg, pkg, today, resp);
      MetadataRoundTrip(Show(resp.uploadId), today);
    }
  }

  /**
   * When a run activates the policy, its last call is one PUT of the fetched policy
   * document rewritten by `Rewritten`, addressed to `policies/id/<general/id>` of the
   * fetched document; the server answered 201, and the run returns the id in its reply.
   */
  lemma ActivationPushesRewrittenPolicy(cfg: Settings, pkg: Package, today: string, resp: Responses)
    requires |resp.putStatuses| >= MaxAttempts
    requires Workflow(cfg, pkg, today, resp).outcome.Activated?
    ensures var run := Workflow(cfg, pkg, today, resp);
      var edit := Rewritten(resp.policyDoc, Show(resp.uploadId), pkg.name);
      var generalId := if GeneralIdPath in resp.policyDoc then Some(resp.policyDoc[GeneralIdPath]) else None;
      && edit.Edited?
      && run.calls[|run.calls| - 1] == PutPolicy(PolicyUrl(cfg, Show(generalId)), edit.doc)
      && run.calls[|run.calls| - 2] == GetPolicy(PolicyLookupUrl(cfg, pkg.title))
      && resp.policyPutStatus == Created
      && run.outcome == Activated(resp.policyPutId)
  {
    GeneralIdKept(resp.policyDoc, Show(resp.uploadId), pkg.name);
  }

  /**
   * A run activates the policy exactly when every step goes its way: the package
   * is absent, curl succeeds with a non-empty id, one of the first eleven metadata
   * PUTs answers 201, the policy is found and has the three nodes, and its PUT
   * answers 201.
   */
  lemma ActivatedIff(cfg: Settings, pkg: Package, today: string, resp: Responses)
    requires |resp.putStatuses| >= MaxAttempts
    ensures Workflow(cfg, pkg, today, resp).outcome.Activated? <==>
      && Uploads(resp)
      && (exists i :: 0 <= i < MaxAttempts && resp.putStatuses[i] == Created)
      && resp.policyStatus == Found
      && PkgIdPath in resp.policyDoc && EnabledPath in resp.policyDoc && PkgNamePath in resp.policyDoc
      && resp.policyPutStatus == Created
  {
  }

  /** Calls of the retry loop all belong to the metadata stage. */
  lemma {:induction false} AttemptStages(put: Call, n: nat)
    requires n >= 1 && put.PutPackage?
    ensures forall c :: c in AttemptCalls(put, n) ==> Stage(c) == 2
  {
    AttemptAccounting(put, n);
  }

  /**
   * A run never goes back to an earlier stage: lookup, upload, metadata updates
   * and pauses, policy lookup, policy update, in that order.
   */
  lemma CallsInStageOrder(cfg: Settings, pkg: Package, today: string, resp: Responses)
    requires |resp.putStatuses| >= MaxAttempts
    ensures InStageOrder(Workflow(cfg, pkg, today, resp).calls)
  {
    var run := Workflow(cfg, pkg, today, resp);
    if Uploads(resp) {
      var retry := RetryOutcome(resp.putStatuses);
      var attempts := AttemptCalls(MetadataPut(cfg, today, resp), retry.attempts);
      AttemptStages(MetadataPut(cfg, today, resp), retry.attempts);
      var n := 2 + |attempts|;
      assert forall k :: 2 <= k < n && k < |run.calls| ==> run.calls[k] == attempts[k - 2];
      assert forall k :: 0 <= k < |run.calls| ==>
        Stage(run.calls[k]) == if k < 2 then k else if k < n then 2 else k - n + 3;
    }
  }

  /** The summary key of the pipeline environment, and the key holding the package path. */
  const SummaryKey: string := "jpc_importer_summary_result"
  const PkgPathKey: string := "pkg_path"

  /** A value of the pipeline environment: plain text, or the importer's summary. */
  datatype EnvValue =
    | Text(text: string)
    | Summary(summaryText: string, reportFields: seq<string>, policyId: Option<string>, pkgPath: string)

  /** The summary published for an activated policy. */
  function SummaryOf(policyId: Option<string>, pkgPath: string): EnvValue
  {
    Summary("The following packages were uploaded:", ["policy_id", "pkg_path"], policyId, pkgPath)
  }

  /**
   * The processor: its settings and package are fixed at construction, its
   * environment is updated by `Execute`. `cfg` and `pkg` are meaningful only when
   * `configured`; an unconfigured instance has no such attributes.
   */
  class Processor {
    const configured: bool
    const cfg: Settings
    const pkg: Package
    var env: map<string, EnvValue>

    /** The pipeline always supplies `pkg_path` (it is a required input) as text. */
    ghost predicate Valid()
      reads this
    {
      PkgPathKey in env && env[PkgPathKey].Text?
    }

    /** The path the pipeline supplied. */
    function PkgPath(): string
      reads this
      requires Valid()
    {
      env[PkgPathKey].text
    }

    /**
     * `JPCImporter.__init__`. Server and credentials come from the preference file,
     * the package from `pkg_path`. `hasHandler` says whether the process-wide logger
     * already has a handler, as it does for every instance after the first: such an
     * instance returns before reading the preferences and is left unconfigured.
     */
    constructor (hasHandler: bool, server: string, user: string, password: string, env: map<string, EnvValue>)
      requires PkgPathKey in env && env[PkgPathKey].Text?
      ensures Valid()
      ensures this.env == env
      ensures configured <==> !hasHandler
      ensures configured ==> cfg == Settings(server, user, password) && pkg == NewPackage(env[PkgPathKey].text)
    {
      this.env := env;
      if hasHandler {
        this.configured := false;
      } else {
        this.configured := true;
        this.cfg := Settings(server, user, password);
        this.pkg := NewPackage(env[PkgPathKey].text);
      }
    }

    /**
     * `JPCImporter.main`: drop any earlier summary, stop if the package file does
     * not exist (`fileExists` stands for that check), run the upload, and publish a
     * summary unless the upload returned the "already present" sentinel.
     */
    method Execute(fileExists: bool, today: string, resp: Responses) returns (outcome: Outcome, calls: seq<Call>)
      requires Valid() && |resp.putStatuses| >= MaxAttempts
      modifies this
      ensures Valid()
      ensures !fileExists ==> outcome == Failed(PackageNotFound(old(PkgPath()))) && calls == []
      ensures fileExists && !configured ==> outcome == Failed(MissingAttribute("base")) && calls == []
      ensures fileExists && configured ==> Run(outcome, calls) == Workflow(cfg, pkg, today, resp)
      ensures SummaryKey in env <==> outcome.Activated?
      ensures outcome.Activated? ==> env[SummaryKey] == SummaryOf(outcome.policyId, old(PkgPath()))
      ensures env - {SummaryKey} == old(env) - {SummaryKey}
    {
      var pkgPath := env[PkgPathKey].text;
      if SummaryKey in env {
        env := env - {SummaryKey};
      }
      if !fileExists {
        return Failed(PackageNotFound(pkgPath)), [];
      }
      if !configured {
        // `upload` reads `self.base` before its first request
        return Failed(MissingAttribute("base")), [];
      }
      outcome, calls := Upload(cfg, pkg, today, resp);
      if outcome.Failed? {
        // the exception propagates: no summary
        return;
      }
      if outcome != AlreadyPresent {
        env := env[SummaryKey := SummaryOf(outcome.policyId, pkgPath)];
      }
    }
  }
}
