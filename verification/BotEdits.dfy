/**
 * Editing an order through the bot: an edit is what was read with the accepted answers applied, and
 * it can be completed.
 */
module BotEdits {
  import opened Prelude
  import opened Calendar
  import opened BotText
  import opened Bot

  /** The draft after a list of accepted answers. */
  function Answered(d: Draft, texts: seq<string>): Option<Draft> {
    if texts == [] then Some(d)
    else
      match Answered(d, texts[..|texts| - 1])
      case None => None
      case Some(e) => AnswerEdit(e, texts[|texts| - 1])
  }

  /** As long as an edit stays open its draft is the start with the accepted answers applied, whatever came between. */
  lemma {:induction false} EditIsItsAnswers(start: Draft, es: seq<Event>)
    requires start.kind.EditKind? && Sensible(start) && StaysOpen(start, es)
    ensures From(Some(start), es).Some? && Sensible(From(Some(start), es).value)
    ensures Answered(start, Accepted(start, es)) == From(Some(start), es)
    ensures |Accepted(start, es)| == Measure(start) - Measure(From(Some(start), es).value)
    ensures From(Some(start), es).value.kind.EditKind?
  {
    hide Next, Measure, Sensible, AnswerEdit, Trim;
    if es != [] {
      var init, e := es[..|es| - 1], es[|es| - 1];
      assert forall n :: 0 <= n <= |init| ==> init[..n] == es[..n];
      EditIsItsAnswers(start, init);
      assert es[..|es|] == es;
      assert From(Some(start), es).Some?;
      DialogueStep(From(Some(start), init).value, e);
      var texts := Accepted(start, es);
      if texts != Accepted(start, init) {
        assert texts[..|texts| - 1] == Accepted(start, init);
      }
    }
  }

  lemma {:induction false} AnsweredPrefix(d: Draft, texts: seq<string>, n: nat)
    requires n <= |texts| && Answered(d, texts).Some?
    ensures Answered(d, texts[..n]).Some?
  {
    if n < |texts| {
      AnsweredPrefix(d, texts[..|texts| - 1], n);
      assert texts[..|texts| - 1][..n] == texts[..n];
    } else {
      assert texts[..n] == texts;
    }
  }

  lemma AnsweredStep(d: Draft, texts: seq<string>, n: nat)
    requires n < |texts| && Answered(d, texts).Some?
    ensures Answered(d, texts[..n]).Some?
        && Answered(d, texts[..n + 1]) == AnswerEdit(Answered(d, texts[..n]).value, texts[n])
    ensures Answered(d, texts[..n + 1]).Some?
    ensures n == 0 ==> Answered(d, texts[..n]) == Some(d)
  {
    hide AnswerEdit;
    AnsweredPrefix(d, texts, n);
    AnsweredPrefix(d, texts, n + 1);
    assert texts[..n + 1][..n] == texts[..n];
  }

  lemma FourAnswers(start: Draft, texts: seq<string>)
    requires start.kind.EditKind? && start.step.DateStep? && |texts| >= 4 && Answered(start, texts).Some?
    ensures Answered(start, texts[..4]) == Some(start.(
              step := PhoneStep,
              date := Keep(start.date, texts[0]), location := Keep(start.location, texts[1]),
              amount := Keep(start.amount, texts[2]), name := Keep(start.name, texts[3])))
    ensures texts[0] != "-" ==> Parse(texts[0]).Some?
  {
    hide Parse, Answered;
    AnsweredStep(start, texts, 0);
    var d1 := start.(date := Keep(start.date, texts[0]), step := LocationStep);
    assert Answered(start, texts[..1]) == Some(d1);
    AnsweredStep(start, texts, 1);
    var d2 := d1.(location := Keep(start.location, texts[1]), step := AmountStep);
    assert Answered(start, texts[..2]) == Some(d2);
    AnsweredStep(start, texts, 2);
    var d3 := d2.(amount := Keep(start.amount, texts[2]), step := NameStep);
    assert Answered(start, texts[..3]) == Some(d3);
    AnsweredStep(start, texts, 3);
  }

  /** At confirm an edit had seven answers, and each field is its answer or, for '-', what the order held. */
  lemma SevenAnswers(start: Draft, texts: seq<string>)
    requires start.kind.EditKind? && start.step.DateStep? && |texts| == 7 && Answered(start, texts).Some?
    ensures Answered(start, texts).value == start.(
              step := ConfirmStep,
              date := Keep(start.date, texts[0]), location := Keep(start.location, texts[1]),
              amount := Keep(start.amount, texts[2]), name := Keep(start.name, texts[3]),
              phone := Keep(start.phone, texts[4]), contact := Keep(start.contact, texts[5]),
              comment := Keep(start.comment, texts[6]))
    ensures texts[0] != "-" ==> Parse(texts[0]).Some?
  {
    hide Parse, Answered;
    FourAnswers(start, texts);
    var d4 := Answered(start, texts[..4]).value;
    AnsweredStep(start, texts, 4);
    var d5 := d4.(phone := Keep(start.phone, texts[4]), step := ContactStep);
    assert Answered(start, texts[..5]) == Some(d5);
    AnsweredStep(start, texts, 5);
    var d6 := d5.(contact := Keep(start.contact, texts[5]), step := CommentStep);
    assert Answered(start, texts[..6]) == Some(d6);
    AnsweredStep(start, texts, 6);
    assert texts[..7] == texts;
  }

  // ---------- Every edit can be completed ----------

  /** An edit takes every answer before confirm but a first one that is neither '-' nor a date. */
  lemma EditTakesIff(d: Draft, text: string, w: World)
    requires d.kind.EditKind? && StepFits(d)
    ensures Answer(d, text, w).Some?
            <==> !d.step.ConfirmStep? && (d.step.DateStep? ==> text == "-" || Parse(text).Some?)
  {
    hide Parse;
  }

  /** Answers an edit takes: no command, nothing to trim, and a date or '-' first. */
  predicate Takable(texts: seq<string>) {
    && (forall i :: 0 <= i < |texts| ==> Trim(texts[i]) == texts[i] != "/cancel")
    && (texts != [] ==> texts[0] == "-" || Parse(texts[0]).Some?)
  }

  /** Nothing left to answer is the confirm step, and seven answers to give is an edit's first step. */
  lemma MeasureOfEdit(d: Draft)
    requires d.kind.EditKind?
    ensures Measure(d) == 0 <==> d.step.ConfirmStep?
    ensures d.step.DateStep? ==> Measure(d) == 7
  {
  }

  lemma DateStepFits(d: Draft)
    requires d.kind.EditKind? && d.step.DateStep?
    ensures StepFits(d)
  {
  }

  lemma OneMoreIsTaken(d: Draft, text: string, w: World)
    requires d.kind.EditKind? && StepFits(d) && Measure(d) > 0 && w.loaded && w.stored.Durable()
    requires Trim(text) == text != "/cancel" && (d.step.DateStep? ==> text == "-" || Parse(text).Some?)
    ensures var r := Next(Some(d), Received(text, w));
            r == AnswerEdit(d, text) && r.Some? && r.value.kind.EditKind? && StepFits(r.value)
                && Measure(r.value) == Measure(d) - 1
  {
    hide Trim, Parse;
  }

  lemma {:induction false} AnswersMove(start: Draft, texts: seq<string>, w: World)
    requires start.kind.EditKind? && start.step.DateStep? && |texts| <= 7 && Takable(texts) && w.loaded
        && w.stored.Durable()
    ensures var r := From(Some(start), Typed(texts, w));
            && r == Answered(start, texts) && r.Some? && r.value.kind.EditKind? && StepFits(r.value)
               && Measure(r.value) == 7 - |texts|
  {
    hide Next, AnswerEdit, Trim, Parse, StepFits, Typed;
    if texts == [] {
      DateStepFits(start);
    } else {
      var init, last := texts[..|texts| - 1], texts[|texts| - 1];
      AnswersMove(start, init, w);
      TypedPart(texts, w, |texts| - 1);
      OneMoreIsTaken(From(Some(start), Typed(init, w)).value, last, w);
    }
  }

  lemma {:induction false} TypedIsAnswered(start: Draft, texts: seq<string>, w: World)
    requires start.kind.EditKind? && start.step.DateStep? && |texts| <= 7 && Takable(texts) && w.loaded
        && w.stored.Durable()
    ensures Accepted(start, Typed(texts, w)) == texts
  {
    hide AnswerEdit, Trim, Parse, StepFits, Typed, Answered, Message, Measure;
    if texts != [] {
      var init, last := texts[..|texts| - 1], texts[|texts| - 1];
      TypedIsAnswered(start, init, w);
      TypedPart(texts, w, |texts| - 1);
      AnswersMove(start, init, w);
      AnswersMove(start, texts, w);
      assert From(Some(start), Typed(init, w)) != From(Some(start), Typed(texts, w));
      assert init + [last] == texts;
    }
  }

  /** Up to seven such answers are all taken, one step each, when the store answers. */
  lemma {:induction false} AnswersAreTaken(start: Draft, texts: seq<string>, w: World)
    requires start.kind.EditKind? && start.step.DateStep? && |texts| <= 7 && Takable(texts) && w.loaded
        && w.stored.Durable()
    ensures var r := From(Some(start), Typed(texts, w));
            && r == Answered(start, texts) && r.Some? && r.value.kind.EditKind? && StepFits(r.value)
               && Measure(r.value) == 7 - |texts|
    ensures StaysOpen(start, Typed(texts, w)) && Accepted(start, Typed(texts, w)) == texts
  {
    hide Next, AnswerEdit, Trim, Parse, StepFits, Typed, Measure, Answered, From;
    AnswersMove(start, texts, w);
    forall n | 0 <= n <= |texts|
      ensures From(Some(start), Typed(texts, w)[..n]).Some?
    {
      TypedPart(texts, w, n);
      AnswersMove(start, texts[..n], w);
    }
    TypedIsAnswered(start, texts, w);
  }
}

