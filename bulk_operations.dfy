/**
 * The decisions inside the bulk-operation handshake of
 * src/bulk_operations/mod.rs: the export poll loop, the status test of the
 * update job, the positional upload form and the storage-key extraction.
 *
 * Every network round trip is a given reply value: the order of the values is
 * the order in which the source sends its requests, and each operation also
 * returns the requests it sent.
 */
module BulkOperations {
  import opened Wrappers
  import opened Text

  /**
   * A GraphQL reply: `send()` failed, `text().await` failed, the body is not
   * JSON, or the fields the source reads from the JSON body.
   */
  datatype Reply<T> = TransportErr | BodyUnreadable | Unparsable | Parsed(body: T)

  /** A JSON value at a fixed path, as `is_null` and `as_str` see it (a missing path reads as null). */
  datatype JsonText = Null | Str(text: string) | NonString

  /** `data.bulkOperationRunQuery.bulkOperation.id` as a string, if it is one. */
  datatype SubmitBody = SubmitBody(bulkOperationId: Option<string>)

  /** `data.node.url` of one poll reply. */
  datatype PollBody = PollBody(url: JsonText)

  /** `data.bulkOperationRunMutation.bulkOperation.status` as a string, if it is one. */
  datatype UpdateBody = UpdateBody(status: Option<string>)

  /** One element of `stagedTargets[0].parameters`: its `name` and `value` as strings, if they are. */
  datatype Param = Param(name: Option<string>, value: Option<string>)

  /** `stagedTargets[0].url` and `stagedTargets[0].parameters` of the staged-upload reply. */
  datatype StagedBody = StagedBody(url: Option<string>, parameters: Option<seq<Param>>)

  /** The reply to the multipart upload, read as text. */
  datatype RawReply = RawTransportErr | RawUnreadable | RawText(text: string)

  datatype FormPart =
    | TextPart(name: string, value: string)
    | FilePart(name: string, fileName: string, mime: string, content: string)

  /** The requests the handshake sends, with the values spliced into them. */
  datatype Request =
    | RunBulkQuery
    | PollNode(bulkId: string)
    | RunBulkMutation(stagedUploadPath: string)
    | CreateStagedUpload
    | PostForm(url: string, form: seq<FormPart>)

  // ---------------------------------------------------------------------
  // bulk_fetch_operation
  // ---------------------------------------------------------------------

  /** The null-url reply that sends the loop round again. */
  const Pending: Reply<PollBody> := Parsed(PollBody(Null))

  /**
   * What one poll reply decides: `None` when the url is null (poll again),
   * otherwise how the loop ends.
   */
  function PollStep(reply: Reply<PollBody>): (r: Option<Outcome<string>>)
    ensures r.None? <==> reply == Pending
  {
    match reply
    case TransportErr => Some(Err("Reqwest error fetching download url"))
    case BodyUnreadable => Some(Panic)
    case Unparsable => Some(Err("Failed to parse download url response"))
    case Parsed(body) =>
      match body.url
      case Null => None
      case Str(url) => Some(Ok(url))
      case NonString => Some(Panic)
  }

  /**
   * The poll loop over a finite run of replies: how it ends and how many
   * poll requests it sent.
   */
  function PollLoop(polls: seq<Reply<PollBody>>): (r: (Outcome<string>, nat))
    ensures r.1 <= |polls|
    ensures r.0.OutOfReplies? ==> r.1 == |polls|
    ensures !r.0.OutOfReplies? ==> r.1 >= 1
  {
    if polls == [] then (OutOfReplies, 0)
    else
      match PollStep(polls[0])
      case Some(outcome) => (outcome, 1)
      case None =>
        var rest := PollLoop(polls[1..]);
        (rest.0, rest.1 + 1)
  }

  /**
   * The loop ends on the first reply that is not a null url, with that reply's
   * outcome, after exactly one request per reply up to and including it.
   */
  lemma {:induction false} PollEndsAtFirstDecisive(polls: seq<Reply<PollBody>>, k: nat)
    requires k < |polls|
    requires forall j :: 0 <= j < k ==> polls[j] == Pending
    requires polls[k] != Pending
    ensures PollLoop(polls) == (PollStep(polls[k]).value, k + 1)
  {
    if k > 0 {
      PollEndsAtFirstDecisive(polls[1..], k - 1);
    }
  }

  /** While every url is null the loop keeps polling until the replies run out. */
  lemma {:induction false} PollAllPending(polls: seq<Reply<PollBody>>)
    requires forall j :: 0 <= j < |polls| ==> polls[j] == Pending
    ensures PollLoop(polls) == (OutOfReplies, |polls|)
  {
    if polls != [] {
      PollAllPending(polls[1..]);
    }
  }

  /**
   * How the loop ended, from its result alone: every reply before the last
   * one consulted is a null url, and the last one decided the outcome.
   */
  lemma {:induction false} PollLoopResult(polls: seq<Reply<PollBody>>)
    ensures var (outcome, n) := PollLoop(polls);
      (forall j :: 0 <= j < n && (outcome.OutOfReplies? || j < n - 1) ==> polls[j] == Pending)
      && (!outcome.OutOfReplies? ==> PollStep(polls[n - 1]) == Some(outcome))
  {
    if polls != [] && polls[0] == Pending {
      PollLoopResult(polls[1..]);
      var (outcome, n) := PollLoop(polls);
      forall j | 1 <= j < n ensures polls[j] == polls[1..][j - 1] {
      }
    }
  }

  /** A successful poll returns the url of the first non-null reply and no other. */
  lemma PollOkIsFirstUrl(polls: seq<Reply<PollBody>>, url: string)
    requires PollLoop(polls).0 == Ok(url)
    ensures var n := PollLoop(polls).1;
      polls[n - 1] == Parsed(PollBody(Str(url)))
      && forall j :: 0 <= j < n - 1 ==> polls[j] == Pending
  {
    PollLoopResult(polls);
  }

  /** Replies after the one that ended the loop are never consulted. */
  lemma {:induction false} PollIgnoresLaterReplies(polls: seq<Reply<PollBody>>, later: seq<Reply<PollBody>>)
    requires !PollLoop(polls).0.OutOfReplies?
    ensures PollLoop(polls + later) == PollLoop(polls)
  {
    assert (polls + later)[0] == polls[0];
    if PollStep(polls[0]).None? {
      assert (polls + later)[1..] == polls[1..] + later;
      PollIgnoresLaterReplies(polls[1..], later);
    }
  }

  /** Two null urls and then a url: that url, after three poll requests. */
  lemma PollThirdReplyCompletes()
    ensures PollLoop([Pending, Pending, Parsed(PollBody(Str("https://x")))]) == (Ok("https://x"), 3)
  {
    var polls := [Pending, Pending, Parsed(PollBody(Str("https://x")))];
    PollEndsAtFirstDecisive(polls, 2);
  }

  /**
   * `bulk_fetch_operation`: submit the export query, then poll the bulk
   * operation's node until its url is not null. A submit reply without a bulk
   * id ends the operation before any poll request.
   */
  method BulkFetchOperation(submit: Reply<SubmitBody>, polls: seq<Reply<PollBody>>)
    returns (r: Outcome<string>, sent: seq<Request>)
    ensures |sent| >= 1 && sent[0] == RunBulkQuery
    ensures submit.TransportErr? ==> r == Err("Reqwest error fetching bulk id") && sent == [RunBulkQuery]
    ensures submit.BodyUnreadable? ==> r == Panic && sent == [RunBulkQuery]
    ensures submit.Unparsable? ==> r == Err("Failed to parse bulk id response") && sent == [RunBulkQuery]
    ensures submit.Parsed? && submit.body.bulkOperationId.None? ==> r == Err("Bulk id is none") && sent == [RunBulkQuery]
    ensures submit.Parsed? && submit.body.bulkOperationId.Some? ==>
      (r, |sent| - 1) == PollLoop(polls)
      && forall j :: 1 <= j < |sent| ==> sent[j] == PollNode(submit.body.bulkOperationId.value)
  {
    sent := [RunBulkQuery];
    match submit {
      case TransportErr =>
        return Err("Reqwest error fetching bulk id"), sent;
      case BodyUnreadable =>
        return Panic, sent;
      case Unparsable =>
        return Err("Failed to parse bulk id response"), sent;
      case Parsed(body) =>
        if body.bulkOperationId.None? {
          return Err("Bulk id is none"), sent;
        }
        var bulkId := body.bulkOperationId.value;
        var i := 0;
        while i < |polls|
          invariant 0 <= i <= |polls|
          invariant forall j :: 0 <= j < i ==> polls[j] == Pending
          invariant |sent| == i + 1 && sent[0] == RunBulkQuery
          invariant forall j :: 1 <= j < |sent| ==> sent[j] == PollNode(bulkId)
        {
          sent := sent + [PollNode(bulkId)];
          var reply := polls[i];
          if reply.TransportErr? {
            PollEndsAtFirstDecisive(polls, i);
            return Err("Reqwest error fetching download url"), sent;
          }
          if reply.BodyUnreadable? {
            PollEndsAtFirstDecisive(polls, i);
            return Panic, sent;
          }
          if reply.Unparsable? {
            PollEndsAtFirstDecisive(polls, i);
            return Err("Failed to parse download url response"), sent;
          }
          var url := reply.body.url;
          if url.Null? {
            i := i + 1;
            continue;
          }
          PollEndsAtFirstDecisive(polls, i);
          if url.NonString? {
            return Panic, sent;
          }
          return Ok(url.text), sent;
        }
        PollAllPending(polls);
        r := OutOfReplies;
    }
  }

  // ---------------------------------------------------------------------
  // bulk_update_operation
  // ---------------------------------------------------------------------

  /**
   * `bulk_update_operation`: start the bulk mutation on the uploaded key and
   * read its reply. The job is accepted exactly when the status is the string
   * `CREATED`; a missing status or any other string is an error.
   */
  function BulkUpdateOperation(uploadKey: string, reply: Reply<UpdateBody>): (r: (Outcome<bool>, seq<Request>))
    ensures r.1 == [RunBulkMutation(uploadKey)]
    ensures r.0.Ok? <==> reply == Parsed(UpdateBody(Some("CREATED")))
    ensures r.0.Ok? ==> r.0.value
    ensures r.0.Panic? <==> reply.BodyUnreadable?
    ensures reply.TransportErr? ==> r.0 == Err("Reqwest error creating bulk update operation")
    ensures reply.Unparsable? ==> r.0 == Err("Failed to parse bulk update response")
    ensures reply.Parsed? && reply.body.status.None? ==> r.0 == Err("Bulk update status is none")
    ensures reply.Parsed? && reply.body.status.Some? && reply.body.status.value != "CREATED" ==>
      r.0 == Err("Update operation failed")
  {
    var outcome :=
      match reply
      case TransportErr => Err("Reqwest error creating bulk update operation")
      case BodyUnreadable => Panic
      case Unparsable => Err("Failed to parse bulk update response")
      case Parsed(body) =>
        if body.status.None? then Err("Bulk update status is none")
        else if body.status.value == "CREATED" then Ok(true)
        else Err("Update operation failed");
    (outcome, [RunBulkMutation(uploadKey)])
  }

  // ---------------------------------------------------------------------
  // upload_file_to_shopify
  // ---------------------------------------------------------------------

  /**
   * The text fields of the upload form, in the order the source adds them,
   * each with the position of the parameter whose value it carries.
   */
  const FormFields: seq<(string, nat)> := [
    ("key", 3), ("x-goog-credential", 5), ("x-goog-algorithm", 6), ("x-goog-date", 4),
    ("x-goog-signature", 7), ("policy", 8), ("acl", 2), ("Content-Type", 0),
    ("success_action_status", 1)]

  /** `parameters[i]["value"].as_str().unwrap()` succeeds for every position the form reads. */
  predicate ParamsUsable(params: seq<Param>) {
    |params| >= 9 && forall i :: 0 <= i < 9 ==> params[i].value.Some?
  }

  /** `parameters[i]["value"]` as a string; `None` for an index past the end or a non-string value. */
  function ValueAt(params: seq<Param>, i: nat): Option<string> {
    if i < |params| then params[i].value else None
  }

  /**
   * The form the source builds: the nine text fields of `FormFields`, each
   * carrying the value at its position, and the file part last.
   */
  predicate IsPositionalForm(form: seq<FormPart>, params: seq<Param>, file: FormPart)
    requires ParamsUsable(params)
  {
    && |form| == |FormFields| + 1
    && form[|FormFields|] == file
    && forall j :: 0 <= j < |FormFields| ==>
      form[j] == TextPart(FormFields[j].0, params[FormFields[j].1].value.value)
  }

  /**
   * Builds the upload form by repeated reassignment, reading the parameters by
   * position (names are never looked at). Fewer than nine parameters or a
   * non-string value among the first nine panics.
   */
  method BuildForm(params: seq<Param>, file: FormPart) returns (r: Outcome<seq<FormPart>>)
    ensures r.Ok? <==> ParamsUsable(params)
    ensures !r.Ok? ==> r == Panic
    ensures r.Ok? ==> IsPositionalForm(r.value, params, file)
  {
    var form: seq<FormPart> := [];
    var v := ValueAt(params, 3);
    if v.None? { return Panic; }
    form := form + [TextPart("key", v.value)];
    v := ValueAt(params, 5);
    if v.None? { return Panic; }
    form := form + [TextPart("x-goog-credential", v.value)];
    v := ValueAt(params, 6);
    if v.None? { return Panic; }
    form := form + [TextPart("x-goog-algorithm", v.value)];
    v := ValueAt(params, 4);
    if v.None? { return Panic; }
    form := form + [TextPart("x-goog-date", v.value)];
    v := ValueAt(params, 7);
    if v.None? { return Panic; }
    form := form + [TextPart("x-goog-signature", v.value)];
    v := ValueAt(params, 8);
    if v.None? { return Panic; }
    form := form + [TextPart("policy", v.value)];
    v := ValueAt(params, 2);
    if v.None? { return Panic; }
    form := form + [TextPart("acl", v.value)];
    v := ValueAt(params, 0);
    if v.None? { return Panic; }
    form := form + [TextPart("Content-Type", v.value)];
    v := ValueAt(params, 1);
    if v.None? { return Panic; }
    form := form + [TextPart("success_action_status", v.value)];
    form := form + [file];
    r := Ok(form);
  }

  /** The value of the first text field called `name`. */
  function FieldValue(form: seq<FormPart>, name: string): Option<string> {
    if form == [] then None
    else if form[0].TextPart? && form[0].name == name then Some(form[0].value)
    else FieldValue(form[1..], name)
  }

  /** The number of text fields in a form. */
  function TextFieldCount(form: seq<FormPart>): nat {
    if form == [] then 0 else (if form[0].TextPart? then 1 else 0) + TextFieldCount(form[1..])
  }

  lemma {:induction false} FieldValueAt(form: seq<FormPart>, name: string, j: nat)
    requires j < |form| && form[j].TextPart? && form[j].name == name
    requires forall k :: 0 <= k < j ==> !(form[k].TextPart? && form[k].name == name)
    ensures FieldValue(form, name) == Some(form[j].value)
  {
    if j > 0 {
      FieldValueAt(form[1..], name, j - 1);
    }
  }

  lemma {:induction false} TextFieldsBeforeFile(form: seq<FormPart>)
    requires |form| > 0 && !form[|form| - 1].TextPart?
    requires forall k :: 0 <= k < |form| - 1 ==> form[k].TextPart?
    ensures TextFieldCount(form) == |form| - 1
  {
    if |form| > 1 {
      TextFieldsBeforeFile(form[1..]);
    }
  }

  /** No two text fields of the form share a name. */
  lemma FormFieldNamesDistinct()
    ensures forall a, b :: 0 <= a < b < |FormFields| ==> FormFields[a].0 != FormFields[b].0
  {
    forall a, b | 0 <= a < b < |FormFields| ensures FormFields[a].0 != FormFields[b].0 {
      if a == 0 {} else if a == 1 {} else if a == 2 {} else if a == 3 {}
      else if a == 4 {} else if a == 5 {} else if a == 6 {} else if a == 7 {}
    }
  }

  lemma PositionalLookup(form: seq<FormPart>, params: seq<Param>, file: FormPart, j: nat)
    requires ParamsUsable(params) && IsPositionalForm(form, params, file) && j < |FormFields|
    ensures FieldValue(form, FormFields[j].0) == params[FormFields[j].1].value
  {
    FormFieldNamesDistinct();
    FieldValueAt(form, FormFields[j].0, j);
  }

  /**
   * The positional form has exactly nine text fields, `Content-Type` from
   * parameter 0, `success_action_status` from 1, `acl` from 2, `key` from 3,
   * `x-goog-date` from 4, `x-goog-credential` from 5, `x-goog-algorithm` from 6,
   * `x-goog-signature` from 7 and `policy` from 8, and the file as last part.
   */
  lemma PositionalFormFields(form: seq<FormPart>, params: seq<Param>, file: FormPart)
    requires ParamsUsable(params) && IsPositionalForm(form, params, file) && file.FilePart?
    ensures TextFieldCount(form) == 9 && form[|form| - 1] == file
    ensures FieldValue(form, "Content-Type") == params[0].value
    ensures FieldValue(form, "success_action_status") == params[1].value
    ensures FieldValue(form, "acl") == params[2].value
    ensures FieldValue(form, "key") == params[3].value
    ensures FieldValue(form, "x-goog-date") == params[4].value
    ensures FieldValue(form, "x-goog-credential") == params[5].value
    ensures FieldValue(form, "x-goog-algorithm") == params[6].value
    ensures FieldValue(form, "x-goog-signature") == params[7].value
    ensures FieldValue(form, "policy") == params[8].value
  {
    TextFieldsBeforeFile(form);
    PositionalLookup(form, params, file, 0);
    PositionalLookup(form, params, file, 1);
    PositionalLookup(form, params, file, 2);
    PositionalLookup(form, params, file, 3);
    PositionalLookup(form, params, file, 4);
    PositionalLookup(form, params, file, 5);
    PositionalLookup(form, params, file, 6);
    PositionalLookup(form, params, file, 7);
    PositionalLookup(form, params, file, 8);
  }

  /**
   * The form depends on the parameters' values and positions only: renaming
   * parameters leaves it as it is.
   */
  lemma FormIgnoresNames(form: seq<FormPart>, params: seq<Param>, renamed: seq<Param>, file: FormPart)
    requires |renamed| == |params|
    requires forall i :: 0 <= i < |params| ==> renamed[i].value == params[i].value
    requires ParamsUsable(params) && IsPositionalForm(form, params, file)
    ensures ParamsUsable(renamed) && IsPositionalForm(form, renamed, file)
  {
  }

  const KeyOpen: string := "<Key>"
  const KeyClose: string := "</Key>"

  /**
   * `result_xml.split("<Key>")[1].split("</Key>")[0]`: the text after the first
   * `<Key>`, cut at the next `<Key>` or `</Key>`. `None` stands for the panic
   * when there is no `<Key>`.
   */
  function ExtractKey(xml: string): (r: Option<string>)
    ensures r.None? <==> !Contains(xml, KeyOpen)
    ensures r.Some? ==> !Contains(r.value, KeyOpen) && !Contains(r.value, KeyClose)
  {
    match SplitSecond(xml, KeyOpen)
    case None => None
    case Some(segment) =>
      var key := SplitFirst(segment, KeyClose);
      PrefixKeepsAbsence(segment, key, KeyOpen);
      Some(key)
  }

  /**
   * The key is the text right after the first `<Key>` and ends where the next
   * `<Key>` or `</Key>` begins (or at the end of the reply).
   */
  lemma KeyEndsAtEarliestMarker(xml: string, i: nat)
    requires IndexOf(xml, KeyOpen) == Some(i)
    ensures ExtractKey(xml).Some?
    ensures var after := xml[i + |KeyOpen|..]; var key := ExtractKey(xml).value;
      key <= after
      && (|key| == |after| || OccursAt(after, KeyOpen, |key|) || OccursAt(after, KeyClose, |key|))
  {
    var after := xml[i + |KeyOpen|..];
    var segment := SplitFirst(after, KeyOpen);
    var key := SplitFirst(segment, KeyClose);
    assert ExtractKey(xml) == Some(key);
    if key != segment {
      assert OccursAt(segment, KeyClose, |key|);
      assert segment[|key|..|key| + |KeyClose|] == after[|key|..|key| + |KeyClose|];
    }
  }

  /** No `<Key>` starts at `j` in `k</Key>rest` before the end of `</Key>`. */
  lemma NoKeyOpenAt(k: string, rest: string, j: int)
    requires !Contains(k, KeyOpen) && 0 <= j < |k| + |KeyClose|
    ensures !OccursAt(k + (KeyClose + rest), KeyOpen, j)
  {
    var after := k + (KeyClose + rest);
    assert after[|k|..|k| + |KeyClose|] == KeyClose;
    if j < |k| {
      NoOccurrenceBefore(k, KeyOpen, KeyClose + rest, j);
    } else if j + |KeyOpen| <= |after| {
      if j == |k| {
        assert after[j..j + |KeyOpen|][1] == after[j + 1] == '/';
      } else {
        assert after[j..j + |KeyOpen|][0] == after[j] == KeyClose[j - |k|];
      }
    }
  }

  /** Cutting `k</Key>rest` at its first `<Key>` keeps `k</Key>` whole. */
  lemma SegmentKeepsClose(k: string, rest: string)
    requires !Contains(k, KeyOpen)
    ensures var segment := SplitFirst(k + (KeyClose + rest), KeyOpen);
      |segment| >= |k| + |KeyClose| && segment[..|k| + |KeyClose|] == k + KeyClose
  {
    var after := k + (KeyClose + rest);
    var segment := SplitFirst(after, KeyOpen);
    if segment != after && |segment| < |k| + |KeyClose| {
      NoKeyOpenAt(k, rest, |segment|);
    }
    assert segment[..|k| + |KeyClose|] == after[..|k| + |KeyClose|];
  }

  /**
   * A reply `p<Key>k</Key>rest`, with no `<Key>` in `p` and no marker in `k`,
   * yields `k`.
   */
  lemma KeyOfWellFormedReply(p: string, k: string, rest: string)
    requires !Contains(p, KeyOpen) && !Contains(k, KeyOpen) && !Contains(k, KeyClose)
    ensures ExtractKey(p + (KeyOpen + (k + (KeyClose + rest)))) == Some(k)
  {
    var after := k + (KeyClose + rest);
    IndexOfAfter(p, KeyOpen, after);
    assert (p + (KeyOpen + after))[|p| + |KeyOpen|..] == after;
    var segment := SplitFirst(after, KeyOpen);
    SegmentKeepsClose(k, rest);
    var tail := segment[|k| + |KeyClose|..];
    assert segment == k + (KeyClose + tail);
    SplitFirstAfter(k, KeyClose, tail);
  }

  /** The file part of the form: the batch file's bytes. */
  function UploadFilePart(content: string): FormPart {
    FilePart("file", "tmp/upload.jsonl", "text/jsonl", content)
  }

  /**
   * `upload_file_to_shopify`: ask for a staged target, post the batch file to
   * it with the positional form, and pull the storage key out of the reply.
   * `batchFile` is `None` when `tmp/upload.jsonl` cannot be opened.
   */
  method UploadFileToShopify(staged: Reply<StagedBody>, batchFile: Option<string>, posted: RawReply)
    returns (r: Outcome<string>, sent: seq<Request>)
    ensures 1 <= |sent| <= 2 && sent[0] == CreateStagedUpload
    ensures staged.TransportErr? ==> r == Err("Reqwest error creating upload") && |sent| == 1
    ensures staged.BodyUnreadable? ==> r == Err("Error uploading") && |sent| == 1
    ensures staged.Unparsable? ==> r == Panic && |sent| == 1
    ensures staged.Parsed? && staged.body.url.None? ==> r == Err("Upload url is none") && |sent| == 1
    ensures staged.Parsed? && staged.body.url.Some? && staged.body.parameters.None? ==>
      r == Err("Parameters is none") && |sent| == 1
    ensures staged.Parsed? && staged.body.url.Some? && staged.body.parameters.Some? && batchFile.None? ==>
      r == Err("Failed to open file") && |sent| == 1
    ensures (staged.Parsed? && staged.body.url.Some? && staged.body.parameters.Some? && batchFile.Some?
             && !ParamsUsable(staged.body.parameters.value)) ==> r == Panic && |sent| == 1
    ensures |sent| == 2 <==>
      staged.Parsed? && staged.body.url.Some? && staged.body.parameters.Some? && batchFile.Some?
      && ParamsUsable(staged.body.parameters.value)
    ensures |sent| == 2 ==>
      && sent[1].PostForm? && sent[1].url == staged.body.url.value
      && IsPositionalForm(sent[1].form, staged.body.parameters.value, UploadFilePart(batchFile.value))
      && r == match posted
        case RawTransportErr => Err("Reqwest error uploading file form")
        case RawUnreadable => Err("Error reading result xml")
        case RawText(xml) => match ExtractKey(xml) case None => Panic case Some(key) => Ok(key)
  {
    sent := [CreateStagedUpload];
    match staged {
      case TransportErr =>
        return Err("Reqwest error creating upload"), sent;
      case BodyUnreadable =>
        return Err("Error uploading"), sent;
      case Unparsable =>
        return Panic, sent;
      case Parsed(body) =>
        if body.url.None? {
          return Err("Upload url is none"), sent;
        }
        var url := body.url.value;
        if body.parameters.None? {
          return Err("Parameters is none"), sent;
        }
        var parameters := body.parameters.value;
        if batchFile.None? {
          return Err("Failed to open file"), sent;
        }
        var file := UploadFilePart(batchFile.value);
        var form := BuildForm(parameters, file);
        if !form.Ok? {
          return Panic, sent;
        }
        sent := sent + [PostForm(url, form.value)];
        match posted {
          case RawTransportErr =>
            return Err("Reqwest error uploading file form"), sent;
          case RawUnreadable =>
            return Err("Error reading result xml"), sent;
          case RawText(xml) =>
            var key := ExtractKey(xml);
            if key.None? {
              return Panic, sent;
            }
            return Ok(key.value), sent;
        }
    }
  }
}
