/** The validation pipe and filter: the pipe joins each failing field's
    messages into one entry; the filter's reply holds those entries, an
    empty one replaced by a generic text, joined by single spaces, with the
    generic text again when nothing is left; resultCode is always 400 while
    the HTTP status is the exception's own. */
module Validation {
  import opened Wrappers
  import opened Strings
  import opened Exceptions

  const VALIDATION_FAILED: string := "Validation failed"

  /** The map step: a falsy (empty) entry becomes the generic text. */
  function Substitute(error: string): (r: string)
    ensures r != ""
    ensures error != "" ==> r == error
    ensures error == "" ==> r == VALIDATION_FAILED
  {
    if error != "" then error else VALIDATION_FAILED
  }

  function Substituted(errors: seq<string>): (r: seq<string>)
    ensures |r| == |errors|
    ensures forall i :: 0 <= i < |errors| ==> r[i] == Substitute(errors[i])
  {
    if |errors| == 0 then [] else [Substitute(errors[0])] + Substituted(errors[1..])
  }

  /** `resultMsg`: the join, or the generic text when the join is empty. */
  function ResultMsg(errors: seq<string>): (r: string)
    ensures r != ""
    ensures errors == [] ==> r == VALIDATION_FAILED
    ensures |errors| == 1 ==> r == Substitute(errors[0])
  {
    var joined := Join(Substituted(errors), ' ');
    if joined == "" then VALIDATION_FAILED else joined
  }

  /** The join is empty, and the fallback applies, exactly when there is no
      entry at all: each substituted entry is non-empty. */
  lemma FallbackOnlyWithoutEntries(errors: seq<string>)
    ensures Join(Substituted(errors), ' ') == "" <==> errors == []
  {
    if errors != [] {
      var xs := Substituted(errors);
      assert |Join(xs, ' ')| >= |xs[0]| > 0;
    }
  }

  /** Entries keep their order: one more entry adds one space and that
      entry, substituted, at the end. */
  lemma {:induction false} ResultMsgSnoc(errors: seq<string>, e: string)
    requires errors != []
    ensures ResultMsg(errors + [e]) == ResultMsg(errors) + " " + Substitute(e)
  {
    assert Substituted(errors + [e]) == Substituted(errors) + [Substitute(e)];
    JoinSnoc(Substituted(errors), Substitute(e), ' ');
    FallbackOnlyWithoutEntries(errors);
    FallbackOnlyWithoutEntries(errors + [e]);
  }

  /** Nothing is lost: with non-empty, space-free entries, splitting the
      message on spaces gives the entries back in order. */
  lemma RecoverEntries(errors: seq<string>)
    requires errors != []
    requires forall i :: 0 <= i < |errors| ==> errors[i] != "" && ' ' !in errors[i]
    ensures Split(ResultMsg(errors), ' ') == errors
  {
    assert Substituted(errors) == errors;
    FallbackOnlyWithoutEntries(errors);
    SplitJoin(errors, ' ');
  }

  /** The pipe's fallback for a field without constraints; note the
      capital F, unlike the filter's own fallback. */
  const PIPE_VALIDATION_FAILED: string := "Validation Failed"

  /** The validation pipe's exceptionFactory: one entry per failing field,
      its constraint messages joined by one space, or the pipe's fallback
      when the field carries no constraints object. */
  function FieldMessages(fields: seq<Option<seq<string>>>): (ms: seq<string>)
    ensures |ms| == |fields|
    ensures forall i :: 0 <= i < |fields| ==>
      ms[i] == (if fields[i].Some? then Join(fields[i].value, ' ') else PIPE_VALIDATION_FAILED)
  {
    if |fields| == 0 then []
    else
      [if fields[0].Some? then Join(fields[0].value, ' ') else PIPE_VALIDATION_FAILED]
      + FieldMessages(fields[1..])
  }

  /** A field whose constraints object is empty is truthy but joins to the
      empty string; the filter then writes its own fallback. */
  lemma EmptyConstraintsFallBack()
    ensures ResultMsg(FieldMessages([Some([])])) == VALIDATION_FAILED
  {
  }

  /** A user name that is both empty and not a string: the pipe joins the
      field's two messages by one space into one entry, and the filter
      writes that entry as it is. */
  lemma TwoMessagesJoined()
    ensures ResultMsg(FieldMessages([Some([Message(EmptyUserName), Message(MustBeString)])])) ==
      Message(EmptyUserName) + " " + Message(MustBeString)
  {
    var m := Join([Message(EmptyUserName), Message(MustBeString)], ' ');
    assert m == Message(EmptyUserName) + " " + Message(MustBeString);
    assert FieldMessages([Some([Message(EmptyUserName), Message(MustBeString)])]) == [m];
  }

  /** What the filter writes. */
  datatype Reply = Reply(status: int, body: ResponseBody)

  /** catch: the HTTP status is the exception's, the body's resultCode is
      400 whatever that status is. */
  function Catch(status: int, errors: seq<string>): (r: Reply)
    ensures r.status == status
    ensures r.body.resultCode == HTTP_BAD_REQUEST
    ensures r.body.resultMsg == ResultMsg(errors) && r.body.resultMsg != ""
  {
    Reply(status, ResponseBody(HTTP_BAD_REQUEST, ResultMsg(errors)))
  }
}
