/**
  The stub categorisation endpoint of the v01 API (`process_categorize`).

  The request is the `ExampleRequest` payload.  The endpoint either answers
  with a JSON body holding one label per input text or raises an HTTP error,
  which the model returns as a value.
 */
module Categorize {
  import opened Outcomes

  /** The request payload: optional ids and the texts to label. */
  datatype ExampleRequest = ExampleRequest(uniqueIds: Option<seq<string>>, textToLabel: seq<string>)

  /** The endpoint's answer: a response body, or an HTTP error. */
  datatype Answer =
    | Body(fields: map<string, seq<string>>)
    | HttpError(statusCode: nat, detail: string)

  const Unimplemented := "unimplemented"
  const EmptyInputDetail := "text_to_label must not be empty."

  /** One `"unimplemented"` label per text. */
  function Labels(texts: seq<string>): (labels: seq<string>)
    ensures |labels| == |texts|
    ensures forall i :: 0 <= i < |labels| ==> labels[i] == Unimplemented
  {
    seq(|texts|, _ => Unimplemented)
  }

  /** `process_categorize`: an empty list of texts is a 400 error; otherwise the
      body has the single key `labels`, with one `"unimplemented"` label per
      text. */
  function ProcessCategorize(req: ExampleRequest): (r: Answer)
    ensures r.HttpError? <==> |req.textToLabel| == 0
    ensures r.HttpError? ==> r.statusCode == 400 && r.detail == EmptyInputDetail
    ensures r.Body? ==>
      && r.fields.Keys == {"labels"}
      && |r.fields["labels"]| == |req.textToLabel|
      && forall i :: 0 <= i < |r.fields["labels"]| ==> r.fields["labels"][i] == Unimplemented
  {
    if |req.textToLabel| == 0 then HttpError(400, EmptyInputDetail)
    else Body(map["labels" := Labels(req.textToLabel)])
  }

  /** The answer depends on the number of texts alone: neither the ids nor the
      texts' contents change it. */
  lemma {:induction false} AnswerDependsOnCountOnly(req1: ExampleRequest, req2: ExampleRequest)
    requires |req1.textToLabel| == |req2.textToLabel|
    ensures ProcessCategorize(req1) == ProcessCategorize(req2)
  {
    var a, b := Labels(req1.textToLabel), Labels(req2.textToLabel);
    assert a == b by {
      assert |a| == |b|;
      forall i | 0 <= i < |a| ensures a[i] == b[i] { }
    }
  }
}
