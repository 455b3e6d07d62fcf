/** The creator's dashboard state: partial updates merged into the loaded
    record, shown at once and reverted when the server refuses them, and the
    two updates the dashboard makes itself (deleting the survey, opening
    or closing it). */
module Creator {
  import opened SurveyTypes
  import DataApi

  /** A `Partial<StoredData>`: each field is supplied (Some) or absent (None);
      a supplied survey may itself be null. */
  datatype Patch = Patch(survey: Option<Option<Survey>>, responses: Option<seq<Response>>, isSurveyOpen: Option<bool>)

  const NoChange: Patch := Patch(None, None, None)

  /** `{ ...storedData, ...updatedData }`: the supplied fields replace the
      record's, the others are kept. */
  function Merge(d: StoredData, p: Patch): (r: StoredData)
    ensures r.survey == if p.survey.Some? then p.survey.value else d.survey
    ensures r.responses == if p.responses.Some? then p.responses.value else d.responses
    ensures r.isSurveyOpen == if p.isSurveyOpen.Some? then p.isSurveyOpen.value else d.isSurveyOpen
  {
    StoredData(
      p.survey.GetOr(d.survey),
      p.responses.GetOr(d.responses),
      p.isSurveyOpen.GetOr(d.isSurveyOpen))
  }

  /** Two patches applied in turn: the later one's supplied fields win. */
  function Then(first: Patch, second: Patch): Patch {
    Patch(
      if second.survey.Some? then second.survey else first.survey,
      if second.responses.Some? then second.responses else first.responses,
      if second.isSurveyOpen.Some? then second.isSurveyOpen else first.isSurveyOpen)
  }

  lemma MergeNoChange(d: StoredData)
    ensures Merge(d, NoChange) == d
  {
  }

  lemma MergeIdempotent(d: StoredData, p: Patch)
    ensures Merge(Merge(d, p), p) == Merge(d, p)
  {
  }

  lemma MergeComposes(d: StoredData, p: Patch, q: Patch)
    ensures Merge(Merge(d, p), q) == Merge(d, Then(p, q))
  {
  }

  const SaveFailedMessage: string := "Failed to save changes."

  /** The dashboard after a `saveData` call: the record shown, the record
      sent to the server (None when nothing was sent) and the error shown. */
  datatype SaveOutcome = SaveOutcome(shown: Option<StoredData>, sent: Option<StoredData>, error: Option<string>)

  /** `saveData`: with no record loaded nothing happens; otherwise the merged
      record is shown at once and sent; if the server refuses it, with
      `failure` carrying the error's message, the original record is shown
      again with that message, or a default one when the message is empty. */
  function SaveData(shown: Option<StoredData>, error: Option<string>, patch: Patch, failure: Option<string>): (r: SaveOutcome)
    ensures shown.None? ==> r == SaveOutcome(shown, None, error)
    ensures shown.Some? ==> r.sent == Some(Merge(shown.value, patch))
    ensures shown.Some? && failure.None? ==> r.shown == r.sent && r.error == error
    ensures shown.Some? && failure.Some? ==> r.shown == shown
    ensures shown.Some? && failure.Some? ==> r.error == Some(if failure.value != "" then failure.value else SaveFailedMessage)
  {
    match shown
    case None => SaveOutcome(shown, None, error)
    case Some(original) =>
      var merged := Merge(original, patch);
      match failure
      case None => SaveOutcome(Some(merged), Some(merged), error)
      case Some(message) => SaveOutcome(Some(original), Some(merged), Some(if message != "" then message else SaveFailedMessage))
  }

  /** What is shown while the request is in flight: the merged record. */
  function Optimistic(shown: Option<StoredData>, patch: Patch): (r: Option<StoredData>)
    ensures r.Some? <==> shown.Some?
  {
    match shown
    case None => None
    case Some(d) => Some(Merge(d, patch))
  }

  /** Whatever the server answers, the record shown afterwards is either the
      one shown while the request was in flight or the original. */
  lemma SaveSettles(shown: Option<StoredData>, error: Option<string>, patch: Patch, failure: Option<string>)
    ensures var r := SaveData(shown, error, patch, failure);
      && (failure.None? ==> r.shown == Optimistic(shown, patch))
      && (failure.Some? ==> r.shown == shown)
      && r.sent == Optimistic(shown, patch)
  {
  }

  /** `confirmDeleteSurvey`'s update: no survey and no responses; whether
      the survey accepts responses is not supplied. */
  const DeletePatch: Patch := Patch(Some(None), Some([]), None)

  lemma DeleteEffect(d: StoredData)
    ensures Merge(d, DeletePatch) == StoredData(None, [], d.isSurveyOpen)
  {
  }

  /** `handleToggleSurveyStatus`'s update: the negated open flag only. */
  function TogglePatch(d: StoredData): (p: Patch)
    ensures p.survey.None? && p.responses.None?
    ensures p.isSurveyOpen == Some(!d.isSurveyOpen)
  {
    Patch(None, None, Some(!d.isSurveyOpen))
  }

  /** Toggling changes the open flag and nothing else; toggling twice gives
      the record back. */
  lemma ToggleEffect(d: StoredData)
    ensures Merge(d, TogglePatch(d)) == d.(isSurveyOpen := !d.isSurveyOpen)
    ensures Merge(Merge(d, TogglePatch(d)), TogglePatch(Merge(d, TogglePatch(d)))) == d
  {
  }

  /** The update made after the AI conversion returns a survey: the new
      survey, no responses, open. */
  function NewSurveyPatch(s: Survey): (p: Patch)
    ensures p.responses == Some([])
  {
    Patch(Some(Some(s)), Some([]), Some(true))
  }

  lemma NewSurveyEffect(d: StoredData, s: Survey)
    ensures Merge(d, NewSurveyPatch(s)) == StoredData(Some(s), [], true)
  {
  }

  // ---------------------------------------------------------------------------
  // The dashboard's saves as seen by the back end

  /** `apiClient.saveData`: a POST with the creator's name in `x-username`
      and the record as the payload. */
  function SaveDataRequest(username: string, d: StoredData): DataApi.Request {
    DataApi.Request("POST", Some(username), None, Some(DataApi.PostBody("saveData",
      DataApi.Payload("", None, None, None, None, d.survey, d.responses, d.isSurveyOpen))))
  }

  /** A respondent's GET of the survey by owner. */
  function PublicRequest(owner: string): DataApi.Request {
    DataApi.Request("GET", None, Some(owner), None)
  }

  /** After a delete is saved, the survey link answers 404 and the creator's
      own record has no survey and no responses but keeps its open flag. */
  lemma DeleteThenFetch(kv: DataApi.Store, username: string, d: StoredData, t1: nat, t2: nat)
    requires username != ""
    ensures var sent := Merge(d, DeletePatch);
      var s1 := DataApi.HandleSpec(kv, SaveDataRequest(username, sent), t1, t2);
      && s1.response.status == 200
      && DataApi.HandleSpec(s1.store, PublicRequest(username), t1, t2).response.status == 404
      && DataApi.HandleSpec(s1.store, DataApi.GetOwnRequest(username), t1, t2).response
         == DataApi.HttpResponse(200, DataApi.DataBody(Some(StoredData(None, [], d.isSurveyOpen))))
  {
    var sent := Merge(d, DeletePatch);
    DataApi.SaveDataIsolated(kv, username, sent, username);
    var kv1 := DataApi.WrittenStore(kv, username, sent);
    assert DataApi.ReadData(kv1, username) == Some(sent);
  }

  /** Closing a survey is only a flag for the respondent's form: after the
      toggle is saved, the back end still appends a response sent by owner. */
  lemma ClosedSurveyStillAppends(kv: DataApi.Store, username: string, d: StoredData, answers: Answers, t1: nat, t2: nat)
    requires username != "" && d.isSurveyOpen
    ensures var sent := Merge(d, TogglePatch(d));
      var s1 := DataApi.HandleSpec(kv, SaveDataRequest(username, sent), t1, t2);
      var s2 := DataApi.HandleSpec(s1.store, DataApi.AddResponseRequest(username, answers), t1, t2);
      && !sent.isSurveyOpen
      && s2.response.status == 200
      && DataApi.RecordOf(s2.store, username) == Some(sent.(responses := d.responses + [Response(t1, t2, answers)]))
  {
    var sent := Merge(d, TogglePatch(d));
    DataApi.SaveDataIsolated(kv, username, sent, username);
    var kv1 := DataApi.WrittenStore(kv, username, sent);
    assert DataApi.ReadData(kv1, username) == Some(sent);
    DataApi.AppendEffect(kv1, username, Response(t1, t2, answers));
  }
}
