/** components/landing/LeadDiagnostic.tsx: the five-question diagnostic, its
    scoring, the PDF cursor and the lead form check. */
module LeadDiagnostic {
  import opened Common

  datatype Question = Question(id: string, area: string)

  /** `QUESTIONS`, in order. */
  const Questions: seq<Question> := [
    Question("alloc", "Alocação"),
    Question("risk", "Risco"),
    Question("liquidity", "Liquidez"),
    Question("goals", "Objetivos"),
    Question("tax", "Fiscal")
  ]

  /** The scores of `OPTIONS`. */
  const OptionScores: set<nat> := {3, 6, 9}

  /** `Number(answers[q.id] ?? 0)`. */
  function Score(answers: map<string, nat>, id: string): nat
  {
    if id in answers then answers[id] else 0
  }

  /** The sum of the scores of the first questions of `qs`. */
  function ScoreSum(qs: seq<Question>, answers: map<string, nat>): nat
  {
    if qs == [] then 0 else ScoreSum(qs[..|qs| - 1], answers) + Score(answers, qs[|qs| - 1].id)
  }

  /** `scores.reduce((a, b) => a + b, 0) / QUESTIONS.length`. */
  function Average(answers: map<string, nat>): real
  {
    ScoreSum(Questions, answers) as real / |Questions| as real
  }

  /** `Math.round`: the nearest integer, halves rounded up. */
  function Round(x: real): int
  {
    (x + 0.5).Floor
  }

  /** `Math.round((scoreAvg / 10) * 100)`. */
  function Percent(answers: map<string, nat>): int
  {
    Round(Average(answers) / 10.0 * 100.0)
  }

  /** The status badge. */
  function Status(percent: int): string
  {
    if percent < 50 then "Em risco" else if percent < 75 then "Em evolução" else "Sólido"
  }

  /** The maturity index is exactly twice the sum of the scores. */
  lemma PercentIsTwiceTheSum(answers: map<string, nat>)
    ensures Percent(answers) == 2 * ScoreSum(Questions, answers)
  {
    var s := ScoreSum(Questions, answers);
    assert Average(answers) / 10.0 * 100.0 == (2 * s) as real;
    assert ((2 * s) as real + 0.5).Floor == 2 * s;
  }

  /** The bands in terms of the sum of the scores: at risk below 25, solid from
      38 on, evolving in between. */
  lemma StatusBands(answers: map<string, nat>)
    ensures Status(Percent(answers)) == "Em risco" <==> ScoreSum(Questions, answers) < 25
    ensures Status(Percent(answers)) == "Sólido" <==> ScoreSum(Questions, answers) >= 38
    ensures Status(Percent(answers)) == "Em evolução" <==> 25 <= ScoreSum(Questions, answers) < 38
  {
    PercentIsTwiceTheSum(answers);
  }

  /** The scores of the first questions of `qs` all lie in [lo, hi]. */
  lemma {:induction false} SumBounds(qs: seq<Question>, answers: map<string, nat>, lo: nat, hi: nat)
    requires forall q :: q in qs ==> lo <= Score(answers, q.id) <= hi
    ensures |qs| * lo <= ScoreSum(qs, answers) <= |qs| * hi
  {
    if qs != [] {
      var init, last := qs[..|qs| - 1], qs[|qs| - 1];
      assert forall q :: q in init ==> q in qs;
      SumBounds(init, answers, lo, hi);
      assert last in qs;
      var s, n := ScoreSum(init, answers), |init|;
      assert ScoreSum(qs, answers) == s + Score(answers, last.id);
      MulSucc(n, lo);
      MulSucc(n, hi);
    }
  }

  lemma MulSucc(n: nat, k: nat)
    ensures (n + 1) * k == n * k + k
  {
  }

  /** With every question answered through one of the options, the index lies
      between 30% and 90%. */
  lemma AnsweredRange(answers: map<string, nat>)
    requires forall q :: q in Questions ==> q.id in answers && answers[q.id] in OptionScores
    ensures 30 <= Percent(answers) <= 90
  {
    SumBounds(Questions, answers, 3, 9);
    PercentIsTwiceTheSum(answers);
  }

  // ---------------------------------------------------------------- ranking

  /** `{ area, score }` plus the question's place, to speak about ties. */
  datatype Rated = Rated(pos: int, area: string, score: nat)

  function Ratings(answers: map<string, nat>): (r: seq<Rated>)
    ensures |r| == |Questions|
    ensures forall i :: 0 <= i < |r| ==> r[i] == Rated(i, Questions[i].area, Score(answers, Questions[i].id))
  {
    seq(|Questions|, i requires 0 <= i < |Questions| => Rated(i, Questions[i].area, Score(answers, Questions[i].id)))
  }

  function Pos(r: Rated): int { r.pos }

  /** `a.score - b.score`. */
  function Ascending(r: Rated): real { r.score as real }

  /** `b.score - a.score`. */
  function Descending(r: Rated): real { -(r.score as real) }

  /** `a` strictly precedes `b` when ordered by `key`, ties by question. */
  predicate Before(key: Rated -> real, a: Rated, b: Rated)
  {
    key(a) < key(b) || (key(a) == key(b) && a.pos < b.pos)
  }

  /** The questions sorted by `key` are a permutation of all of them, strictly
      ordered by the key and then by question order. */
  lemma Ranked(answers: map<string, nat>, key: Rated -> real)
    ensures multiset(SortBy(Ratings(answers), key)) == multiset(Ratings(answers))
    ensures var w := SortBy(Ratings(answers), key);
      forall i, j :: 0 <= i < j < |w| ==> Before(key, w[i], w[j])
  {
    var rs := Ratings(answers);
    var w := SortBy(rs, key);
    SortByStable(rs, key, Pos);
    PermutationKeepsDistinct(rs, w);
    forall i, j | 0 <= i < j < |w| ensures Before(key, w[i], w[j]) {
      assert key(w[i]) <= key(w[j]);
      if key(w[i]) == key(w[j]) {
        assert Pos(w[i]) < Pos(w[j]);
      }
    }
  }

  /** `.slice(0, 2).map((a) => a.area)` of the ascending sort. */
  function Weakest(answers: map<string, nat>): seq<Rated>
  {
    SortBy(Ratings(answers), Ascending)[..2]
  }

  /** The fallback summary's `weakest`: the two areas joined by " e ". */
  function WeakestText(answers: map<string, nat>): string
  {
    var w := Weakest(answers);
    w[0].area + " e " + w[1].area
  }

  /** The two areas the fallback summary names have the lowest scores, ties
      going to the earlier question. */
  lemma WeakestAreLowest(answers: map<string, nat>)
    ensures var w := SortBy(Ratings(answers), Ascending);
      && Weakest(answers) == w[..2]
      && multiset(w) == multiset(Ratings(answers))
      && forall i, j :: 0 <= i < 2 <= j < |w| ==> Before(Ascending, w[i], w[j])
  {
    Ranked(answers, Ascending);
  }

  /** The fallback summary always names two different areas of the
      questionnaire, so its `|| 'diversificação e metas'` default never
      applies. */
  lemma WeakestNamesTwoAreas(answers: map<string, nat>)
    ensures WeakestText(answers) != ""
    ensures var w := Weakest(answers);
      && (exists i :: 0 <= i < |Questions| && w[0].area == Questions[i].area)
      && (exists i :: 0 <= i < |Questions| && w[1].area == Questions[i].area)
      && w[0].area != w[1].area
  {
    var r := Ratings(answers);
    var w := SortBy(r, Ascending);
    Ranked(answers, Ascending);
    assert w[0] in multiset(r) && w[1] in multiset(r);
    var a :| 0 <= a < |r| && r[a] == w[0];
    var b :| 0 <= b < |r| && r[b] == w[1];
    assert Before(Ascending, w[0], w[1]);
    assert a != b;
    assert w[0].area == Questions[a].area && w[1].area == Questions[b].area;
    AreasDiffer(a, b);
  }

  /** The five areas have different initials, so no two are equal. */
  lemma AreasDiffer(a: nat, b: nat)
    requires a < |Questions| && b < |Questions| && a != b
    ensures Questions[a].area != Questions[b].area
  {
    var initials := ['A', 'R', 'L', 'O', 'F'];
    assert forall k :: 0 <= k < |Questions| ==> |Questions[k].area| > 0 && Questions[k].area[0] == initials[k];
  }

  /** The default SWOT strengths: `${area}: base razoável (${score}/10)` for
      the first two of the descending sort. */
  function Strengths(answers: map<string, nat>): seq<string>
  {
    var w := SortBy(Ratings(answers), Descending);
    [w[0].area + ": base razoável (" + NatToString(w[0].score) + "/10)",
     w[1].area + ": base razoável (" + NatToString(w[1].score) + "/10)"]
  }

  /** The default SWOT weaknesses: `${area}: precisa de atenção (${score}/10)`
      for `slice(-2)`, the last two of the descending sort. */
  function Weaknesses(answers: map<string, nat>): seq<string>
  {
    var w := SortBy(Ratings(answers), Descending);
    [w[3].area + ": precisa de atenção (" + NatToString(w[3].score) + "/10)",
     w[4].area + ": precisa de atenção (" + NatToString(w[4].score) + "/10)"]
  }

  /** The strengths are the two best-scored areas (ties to the earlier
      question) and the weaknesses the two worst (ties to the later one). */
  lemma SwotDefaults(answers: map<string, nat>)
    ensures var w := SortBy(Ratings(answers), Descending);
      && |w| == 5
      && multiset(w) == multiset(Ratings(answers))
      && (forall i, j :: 0 <= i < 2 <= j < 5 ==> Before(Descending, w[i], w[j]))
      && (forall i, j :: 0 <= i < 3 <= j < 5 ==> Before(Descending, w[i], w[j]))
      && Strengths(answers)[0] == w[0].area + ": base razoável (" + NatToString(w[0].score) + "/10)"
      && Strengths(answers)[1] == w[1].area + ": base razoável (" + NatToString(w[1].score) + "/10)"
      && Weaknesses(answers)[0] == w[3].area + ": precisa de atenção (" + NatToString(w[3].score) + "/10)"
      && Weaknesses(answers)[1] == w[4].area + ": precisa de atenção (" + NatToString(w[4].score) + "/10)"
  {
    Ranked(answers, Descending);
  }

  /** The bar fill, `Math.max(3, Math.min(110, (score / 10) * 110))`. */
  function Fill(score: real): (f: real)
    ensures 3.0 <= f <= 110.0
    ensures 3.0 <= score / 10.0 * 110.0 <= 110.0 ==> f == score / 10.0 * 110.0
  {
    var raw := score / 10.0 * 110.0;
    if raw > 110.0 then 110.0 else if raw < 3.0 then 3.0 else raw
  }

  /** A better score never draws a shorter bar. */
  lemma FillMonotone(a: real, b: real)
    requires a <= b
    ensures Fill(a) <= Fill(b)
  {
    assert a / 10.0 * 110.0 <= b / 10.0 * 110.0;
  }

  // ---------------------------------------------------------------- PDF cursor

  /** The lowest baseline a page allows, and where a new page starts. */
  const PageBottom: real := 285.0
  const PageTop: real := 22.0

  /** Where content of height `space` starts: a new page when it would pass
      the bottom. */
  function SpaceStart(y: real, space: real): real
  {
    if y + space > PageBottom then PageTop else y
  }

  /** The cursor after `n` wrapped lines of height `lh`. */
  function WrapY(y: real, n: nat, lh: real): real
  {
    if n == 0 then y else SpaceStart(WrapY(y, n - 1, lh), lh) + lh
  }

  /** The pages the `n` wrapped lines add. */
  function WrapPages(y: real, n: nat, lh: real): nat
  {
    if n == 0 then 0
    else WrapPages(y, n - 1, lh) + (if WrapY(y, n - 1, lh) + lh > PageBottom then 1 else 0)
  }

  /** Content no taller than a page fits where `ensureSpace` puts it, and
      content that already fits is not moved. */
  lemma BlockFits(y: real, space: real)
    requires space <= PageBottom - PageTop
    ensures SpaceStart(y, space) + space <= PageBottom
    ensures y + space <= PageBottom ==> SpaceStart(y, space) == y
  {
  }

  /** Every wrapped line ends on its page, and the cursor stays on the page. */
  lemma {:induction false} LinesStayOnPage(y: real, n: nat, lh: real)
    requires y <= PageBottom
    requires 0.0 <= lh <= PageBottom - PageTop
    ensures WrapY(y, n, lh) <= PageBottom
    ensures forall k :: 0 <= k < n ==> SpaceStart(WrapY(y, k, lh), lh) + lh <= PageBottom
  {
    if n > 0 {
      LinesStayOnPage(y, n - 1, lh);
    }
  }

  /** The `y` cursor and the page count of the jsPDF document. */
  class PdfCursor {
    var y: real
    var pages: nat

    constructor ()
      ensures y == PageTop && pages == 1
    {
      y, pages := PageTop, 1;
    }

    /** `ensureSpace(space)`. */
    method EnsureSpace(space: real)
      modifies this
      ensures y == SpaceStart(old(y), space)
      ensures pages == old(pages) + (if old(y) + space > PageBottom then 1 else 0)
    {
      if y + space > PageBottom {
        pages := pages + 1;
        y := PageTop;
      }
    }

    /** `wrap(text, x, width, lineHeight)` for a text that `splitTextToSize`
        cut into `lineCount` lines. */
    method Wrap(lineCount: nat, lineHeight: real)
      modifies this
      ensures y == WrapY(old(y), lineCount, lineHeight)
      ensures pages == old(pages) + WrapPages(old(y), lineCount, lineHeight)
    {
      ghost var y0, p0 := y, pages;
      for k := 0 to lineCount
        invariant y == WrapY(y0, k, lineHeight)
        invariant pages == p0 + WrapPages(y0, k, lineHeight)
      {
        if y + lineHeight > PageBottom {
          pages := pages + 1;
          y := PageTop;
        }
        y := y + lineHeight;
      }
    }
  }

  // ---------------------------------------------------------------- steps

  /** The question shown at `step`: `QUESTIONS[step - 1]`, none outside 1..5. */
  function CurrentQuestion(step: int): Option<Question>
  {
    if 1 <= step <= |Questions| then Some(Questions[step - 1]) else None
  }

  /** The step after an answer: the next question, the form after the last. */
  function NextStep(step: int): int
  {
    if step < |Questions| then step + 1 else |Questions| + 1
  }

  /** `Math.min((step / (QUESTIONS.length + 1)) * 100, 100)`. */
  function Progress(step: int): real
  {
    var p := step as real / (|Questions| + 1) as real * 100.0;
    if p < 100.0 then p else 100.0
  }

  /** How many questions lie behind `step`. */
  function AnsweredCount(step: int): nat
  {
    if step <= 1 then 0 else if step > |Questions| + 1 then |Questions| else step - 1
  }

  /** The ids of the questions answered before `step`. */
  function AnsweredIds(step: int): set<string>
  {
    set i | 0 <= i < AnsweredCount(step) :: Questions[i].id
  }

  /** Answering walks the steps forward one at a time and ends on the form, and
      progress rises with it without passing 100. */
  lemma AnswerAdvances(step: int)
    requires CurrentQuestion(step).Some?
    ensures NextStep(step) == step + 1 && 2 <= NextStep(step) <= |Questions| + 1
    ensures AnsweredIds(NextStep(step)) == AnsweredIds(step) + {CurrentQuestion(step).value.id}
    ensures 0.0 <= Progress(step) < Progress(NextStep(step)) <= 100.0
    ensures Progress(NextStep(step)) == 100.0 <==> step == |Questions|
  {
    var ids := AnsweredIds(step) + {Questions[step - 1].id};
    assert AnsweredIds(step + 1) == ids by {
      forall x ensures x in AnsweredIds(step + 1) <==> x in ids {
        if x in AnsweredIds(step + 1) {
          var i :| 0 <= i < AnsweredCount(step + 1) && Questions[i].id == x;
          if i < step - 1 {
            assert x in AnsweredIds(step);
          }
        }
      }
    }
  }

  /** The diagnostic's React state: `step` and `answers`. */
  class Diagnostic {
    var step: int
    var answers: map<string, nat>

    /** The answers recorded are those of the questions already passed. */
    ghost predicate Valid()
      reads this
    {
      0 <= step <= |Questions| + 1 && answers.Keys == AnsweredIds(step)
    }

    constructor ()
      ensures step == 0 && answers == map[] && Valid()
    {
      step, answers := 0, map[];
    }

    /** The "Iniciar diagnóstico" button. */
    method Start()
      requires step == 0 && Valid()
      modifies this
      ensures step == 1 && answers == old(answers) && Valid()
    {
      step := 1;
    }

    /** `handleAnswer(value)`. */
    method HandleAnswer(value: nat)
      requires Valid()
      modifies this
      ensures CurrentQuestion(old(step)).None? ==> step == old(step) && answers == old(answers)
      ensures CurrentQuestion(old(step)).Some? ==>
        && answers == old(answers)[CurrentQuestion(old(step)).value.id := value]
        && step == NextStep(old(step))
      ensures Valid()
    {
      var current := CurrentQuestion(step);
      if current.None? {
        return;
      }
      AnswerAdvances(step);
      answers := answers[current.value.id := value];
      if step < |Questions| {
        step := step + 1;
      } else {
        step := |Questions| + 1;
      }
    }
  }

  // ---------------------------------------------------------------- lead form

  datatype Lead = Lead(name: string, email: string, phone: string)

  /** `cleanLead`: every field trimmed. */
  function Clean(lead: Lead): Lead
  {
    Lead(Trim(lead.name), Trim(lead.email), Trim(lead.phone))
  }

  /** `handleSubmitLead` goes on only when no trimmed field is empty. */
  predicate CanSubmit(lead: Lead)
  {
    Clean(lead).name != "" && Clean(lead).email != "" && Clean(lead).phone != ""
  }

  predicate HasText(s: string)
  {
    exists i :: 0 <= i < |s| && !IsSpace(s[i])
  }

  /** A lead is submitted exactly when each field has a character other than
      white space. */
  lemma SubmitNeedsEveryField(lead: Lead)
    ensures CanSubmit(lead) <==> HasText(lead.name) && HasText(lead.email) && HasText(lead.phone)
  {
    TrimBlank(lead.name);
    TrimBlank(lead.email);
    TrimBlank(lead.phone);
  }
}
