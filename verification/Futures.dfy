/** The future handed to workflow code during replay. */
module Futures {
  import opened Api

  datatype Future = Pending | Resolved(outcome: Outcome)

  /** The errors `Get` can return, with the parts their texts are built from. */
  datatype GetError =
    | Recorded(error: string)
    | InvalidFormat(count: nat)
    | ActivityError(text: string)
    | ActivityErrorValue(value: Value)

  datatype GetResult =
    | Suspends
    | Fails(error: GetError)
    | Untouched
    | Gives(value: Value)

  /** `Get` on a pending future suspends the workflow. Otherwise it decodes the recorded
      [result, error] pair; `wanted` says whether the caller passed a result pointer. */
  function Get(f: Future, wanted: bool): (r: GetResult)
    ensures r.Suspends? <==> f.Pending?
    ensures f.Resolved? && f.outcome.Failed? ==> r == Fails(Recorded(f.outcome.error))
    ensures r.Gives? <==> wanted && exists v :: v != Nil && f == Resolved(Completed([v, Nil]))
    ensures r.Gives? ==> f == Resolved(Completed([r.value, Nil]))
    ensures r.Untouched? <==> f.Resolved? && f.outcome.Completed? && (!wanted || f.outcome.result == [Nil, Nil])
    ensures r.Fails? && r.error.InvalidFormat? <==>
      wanted && f.Resolved? && f.outcome.Completed? && |f.outcome.result| != 2
    ensures forall first, text :: wanted && text != "" && f == Resolved(Completed([first, Text(text)])) ==>
      r == Fails(ActivityError(text))
    ensures forall first, error | error != Nil && !(error.Text? && error.text != "") ::
      wanted && f == Resolved(Completed([first, error])) ==> r == Fails(ActivityErrorValue(error))
    ensures r.Fails? && r.error.InvalidFormat? ==> r.error.count == |f.outcome.result|
  {
    match f
    case Pending => Suspends
    case Resolved(Failed(error)) => Fails(Recorded(error))
    case Resolved(Completed(result)) =>
      if !wanted then Untouched
      else if |result| != 2 then Fails(InvalidFormat(|result|))
      else if result[1] != Nil then
        if result[1].Text? && result[1].text != "" then Fails(ActivityError(result[1].text))
        else Fails(ActivityErrorValue(result[1]))
      else if result[0] != Nil then
        assert result == [result[0], Nil];
        Gives(result[0])
      else Untouched
  }
}
