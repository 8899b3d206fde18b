/** Optional values: a missing spreadsheet cell (NaN / NaT) is `None`. */
module Wrappers {

  datatype Option<+T> = None | Some(value: T)

  /** A dashboard selector: `'전체'` ("all") leaves a level unconstrained. */
  datatype Pick<+T> = All | Only(value: T)

  /** The literal sentinel the select boxes put first in every option list. */
  const AllSentinel: string := "전체"

  /** The value of a string select box: the sentinel text means "no constraint". */
  function FromWidget(s: string): (p: Pick<string>)
    ensures p == All <==> s == AllSentinel
    ensures p.Only? ==> p.value == s
  {
    if s == AllSentinel then All else Only(s)
  }
}
