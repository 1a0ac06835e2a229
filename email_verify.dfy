/** The email-verification page: on submit it joins the six cells and sends
    the code only if it is exactly six decimal digits. */
module EmailVerifyPage {
  import opened Outcomes
  import opened OtpCode
  import opened OtpInput

  /** `/^\d{6}$/.test(s)`: `\d` without the `u` flag is 0-9. */
  predicate IsSixDigitCode(s: string) {
    |s| == 6 && AllDigits(s)
  }

  /** `onSubmitHandler`: the code sent to verify-account, or None when it
      returns early and sends no request. */
  function VerifyRequest(cells: seq<string>): (r: Option<string>)
    ensures r.Some? <==> |Join(cells)| == 6 && AllDigits(Join(cells))
    ensures r.Some? ==> r.value == Join(cells)
  {
    var otp := Join(cells);
    if |otp| != 6 || !IsSixDigitCode(otp) then None else Some(otp)
  }

  /** Pasting a text whose first six characters are digits submits exactly
      those six characters. */
  lemma PastedDigitsAreSubmitted(cells: seq<string>, clip: string)
    requires |cells| == CellCount && |clip| >= PasteLimit && AllDigits(clip[..CellCount])
    ensures VerifyRequest(Pasted(cells, PastePrefix(clip))) == Some(clip[..CellCount])
  {
    PasteThenJoin(cells, clip);
  }

  /** A code issued by the server, pasted from the mail, passes the page's
      check and is sent unchanged. */
  lemma IssuedCodeIsSubmitted(cells: seq<string>, draw: int)
    requires |cells| == CellCount && MinCode <= draw <= MaxCode
    ensures VerifyRequest(Pasted(cells, PastePrefix(IssueCode(draw)))) == Some(IssueCode(draw))
  {
    var code := IssueCode(draw);
    assert code[..CellCount] == code;
    PastedDigitsAreSubmitted(cells, code);
  }

  /** With any cell empty (and none longer than one character) no request
      is sent. */
  lemma IncompleteIsNotSent(cells: seq<string>, empty: nat)
    requires |cells| == CellCount && empty < |cells| && cells[empty] == ""
    requires forall i :: 0 <= i < |cells| ==> |cells[i]| <= 1
    ensures VerifyRequest(cells) == None
  {
    JoinFull(cells);
  }
}
