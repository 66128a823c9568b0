/**
  Post-processing of a raw completion into the answer shown to the user: a
  fixed fallback for an empty completion; otherwise the trimmed text, with an
  escalation note for troubleshooting queries, followed by a fixed disclaimer.
 */
module ResponseParser {
  import opened Text
  import opened PromptSelector

  /** The disclaimer every non-empty answer ends with. The fixed texts are
      written in pieces so that their characters can be read off. */
  const DefaultEndNote := "\n\nNote: This is a " + "simulated AI response; " + "content may not be fully accurate.\n"

  /** The answer given when the completion is empty. */
  const NoResponseMessage := "No response was received. " + "Please try again or revise your question."

  /** The escalation advice added to troubleshooting answers, and the note
      appended to the completion to carry it. */
  const EscalationText := "If the issue persists, " + "consider contacting " + "technical support or an expert."
  const EscalationNote := "\n\n" + EscalationText

  /** The final answer for a raw completion and the category of its query:
      the fallback message for the empty completion, and otherwise an answer
      that ends with the disclaimer. */
  function ParseResponse(rawResponse: string, queryCategory: QueryCategory): (r: string)
    ensures rawResponse == [] ==> r == NoResponseMessage
    ensures rawResponse != [] ==> EndsWith(r, DefaultEndNote)
  {
    if rawResponse == [] then NoResponseMessage
    else
      var response := if queryCategory == Troubleshooting then rawResponse + EscalationNote else rawResponse;
      var body := Strip(response);
      assert (body + DefaultEndNote)[|body|..] == DefaultEndNote;
      body + DefaultEndNote
  }

  /** The fallback message is given for the empty completion, whatever the
      category, and for no other completion. */
  lemma FallbackExactlyForEmpty(rawResponse: string, queryCategory: QueryCategory)
    ensures ParseResponse(rawResponse, queryCategory) == NoResponseMessage <==> rawResponse == []
  {

  }

  /** A non-empty completion comes back trimmed at the start of the answer and
      the disclaimer is at its end. */
  lemma AnswerFramesStrippedResponse(rawResponse: string, queryCategory: QueryCategory)
    requires rawResponse != []
    ensures var out := ParseResponse(rawResponse, queryCategory);
      && StartsWith(out, Strip(rawResponse))
      && Contains(out, Strip(rawResponse))
      && EndsWith(out, DefaultEndNote)
  {
    var body := if queryCategory == Troubleshooting then Strip(rawResponse + EscalationNote) else Strip(rawResponse);
    BodyStartsWithStripped(rawResponse, queryCategory);
    PrefixThenSuffix(body, Strip(rawResponse), DefaultEndNote);
  }

  /** Before the disclaimer is added, the answer starts with the trimmed completion. */
  lemma BodyStartsWithStripped(rawResponse: string, queryCategory: QueryCategory)
    requires rawResponse != []
    ensures queryCategory == Troubleshooting ==> StartsWith(Strip(rawResponse + EscalationNote), Strip(rawResponse))
    ensures StartsWith(Strip(rawResponse), Strip(rawResponse))
  {
    if !IsBlank(rawResponse) {
      StripAppendNote(rawResponse);
      StripIsPrefixOfTrimLeft(rawResponse);
      StartsWithExtend(TrimLeft(rawResponse), Strip(rawResponse), EscalationNote);
    }
  }

  lemma StripAppendNote(rawResponse: string)
    requires !IsBlank(rawResponse)
    ensures Strip(rawResponse + EscalationNote) == TrimLeft(rawResponse) + EscalationNote
  {
    assert EscalationNote[|EscalationNote| - 1] == '.';
    StripAppend(rawResponse, EscalationNote);
  }

  lemma StripEscalationNote()
    ensures Strip(EscalationNote) == EscalationText
  {
    EscalationEnds();
    StripAfterBlank("\n\n", EscalationText);
  }

  /** The advice starts with 'I' and ends with a full stop. */
  lemma EscalationEnds()
    ensures EscalationText != [] && EscalationText[0] == 'I' && EscalationText[|EscalationText| - 1] == '.'
  {
  }

  /** Troubleshooting answers carry the escalation advice before the
      disclaimer. Only the leading whitespace of the completion is cut,
      because the note is appended before stripping; a blank completion
      leaves the advice alone, without the blank lines in front of it. */
  lemma TroubleshootingEscalates(rawResponse: string)
    requires rawResponse != []
    ensures var out := ParseResponse(rawResponse, Troubleshooting);
      && (!IsBlank(rawResponse) ==> out == TrimLeft(rawResponse) + EscalationNote + DefaultEndNote)
      && (IsBlank(rawResponse) ==> out == EscalationText + DefaultEndNote)
      && Contains(out, EscalationText)
      && EndsWith(out, DefaultEndNote)
  {
    if IsBlank(rawResponse) {
      StripBlankPrefix(rawResponse, EscalationNote);
      StripEscalationNote();
      AppendKeepsPieces([], EscalationText, DefaultEndNote);
      assert [] + EscalationText == EscalationText;
    } else {
      StripAppendNote(rawResponse);
      NoteCarriesText(TrimLeft(rawResponse), DefaultEndNote);
    }
  }

  lemma NoteCarriesText(front: string, back: string)
    ensures Contains(front + EscalationNote + back, EscalationText)
    ensures EndsWith(front + EscalationNote + back, back)
  {
    AppendKeepsPieces(front + "\n\n", EscalationText, back);
    assert front + "\n\n" + EscalationText + back == front + EscalationNote + back;
  }

  /** For every other category the answer is the trimmed completion followed
      by the disclaimer; a blank completion leaves only the disclaimer. */
  lemma OtherCategoriesOnlyTrim(rawResponse: string, queryCategory: QueryCategory)
    requires rawResponse != [] && queryCategory != Troubleshooting
    ensures ParseResponse(rawResponse, queryCategory) == Strip(rawResponse) + DefaultEndNote
    ensures IsBlank(rawResponse) ==> ParseResponse(rawResponse, queryCategory) == DefaultEndNote
  {
  }

  /** Outside troubleshooting the escalation advice shows up in the answer only
      when the completion itself contains it. */
  lemma NoEscalationUnlessEchoed(rawResponse: string, queryCategory: QueryCategory)
    requires rawResponse != [] && queryCategory != Troubleshooting
    requires !Contains(rawResponse, EscalationText)
    ensures !Contains(ParseResponse(rawResponse, queryCategory), EscalationText)
  {
    var stripped := Strip(rawResponse);
    var k :| StrippedAt(rawResponse, stripped, k);
    if Contains(stripped, EscalationText) {
      ContainsFromSlice(rawResponse, k, stripped, EscalationText);
    }
    EscalationHasNoLineBreak();
    DisclaimerLacksEscalation();
    NotContainsAcrossLineBreak(stripped, DefaultEndNote, EscalationText);
  }

  lemma EscalationHasNoLineBreak()
    ensures '\n' !in EscalationText
  {

  }

  /** The disclaimer is two characters longer than the advice and starts with
      two line breaks and an 'N', so the advice cannot occur in it. */
  lemma DisclaimerLacksEscalation()
    ensures !Contains(DefaultEndNote, EscalationText)
  {
    var d, e := DefaultEndNote, EscalationText;
    var head := "\n\nN";
    assert StartsWith(d, head) by {
      StartsWithExtend("\n\nNote: This is a ", head, "simulated AI response; ");
      StartsWithExtend("\n\nNote: This is a " + "simulated AI response; ", head, "content may not be fully accurate.\n");
    }
    assert |d| == |e| + 2;
    assert e[0] == 'I';
    ContainsIffOccurs(d, e);
    forall i | 0 <= i && i + |e| <= |d| ensures !OccursAt(d, e, i) {
      assert d[i] == head[i];
      assert d[i..i + |e|][0] == d[i];
    }
  }
}
