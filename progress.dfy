/** Done ratios of question lists, subtopics and topics, as exact rationals. */
module Progress {
  import opened Catalog

  /** `questions.filter(q => q.status === "Done").length` */
  function DoneCount(qs: seq<Question>): (n: nat)
    ensures n <= |qs|
    ensures n == |qs| <==> forall k :: 0 <= k < |qs| ==> qs[k].status == Done
    ensures n == 0 <==> forall k :: 0 <= k < |qs| ==> qs[k].status != Done
  {
    if qs == [] then 0 else (if qs[0].status == Done then 1 else 0) + DoneCount(qs[1..])
  }

  lemma {:induction false} DoneCountAppend(a: seq<Question>, b: seq<Question>)
    ensures DoneCount(a + b) == DoneCount(a) + DoneCount(b)
  {
    if a != [] {
      assert (a + b)[1..] == a[1..] + b;
      DoneCountAppend(a[1..], b);
    } else {
      assert a + b == b;
    }
  }

  /** `calculateProgress`: the percentage of Done questions, 0 for an empty list. */
  function CalculateProgress(qs: seq<Question>): (r: real)
    ensures 0.0 <= r <= 100.0
    ensures qs == [] ==> r == 0.0
    ensures qs != [] ==> r * (|qs| as real) == 100.0 * (DoneCount(qs) as real)
    ensures qs != [] ==> (r == 100.0 <==> forall k :: 0 <= k < |qs| ==> qs[k].status == Done)
    ensures r == 0.0 <==> forall k :: 0 <= k < |qs| ==> qs[k].status != Done
  {
    if |qs| == 0 then 0.0 else RatioPercent(DoneCount(qs), |qs|)
  }

  /** `(part / whole) * 100` on exact rationals. */
  function RatioPercent(part: nat, whole: nat): (r: real)
    requires 0 < whole && part <= whole
    ensures 0.0 <= r <= 100.0
    ensures r * (whole as real) == 100.0 * (part as real)
    ensures r == 100.0 <==> part == whole
    ensures r == 0.0 <==> part == 0
  {
    RatioFacts(part, whole);
    (part as real) / (whole as real) * 100.0
  }

  lemma RatioFacts(part: nat, whole: nat)
    requires 0 < whole && part <= whole
    ensures var r := (part as real) / (whole as real) * 100.0;
      && 0.0 <= r <= 100.0
      && r * (whole as real) == 100.0 * (part as real)
      && (r == 100.0 <==> part == whole)
      && (r == 0.0 <==> part == 0)
  {
    var w := whole as real;
    var q := (part as real) / w;
    var r := q * 100.0;
    assert q * w == part as real;
    assert r * w == 100.0 * (q * w);
    CancelLe(q, 1.0, w);
    CancelLe(0.0, q, w);
    if r == 100.0 {
      assert q * w == 1.0 * w;
    }
  }

  lemma CancelLe(a: real, b: real, n: real)
    requires n > 0.0 && a * n <= b * n
    ensures a <= b
  {
  }

  lemma CancelLt(a: real, b: real, n: real)
    requires n > 0.0 && a * n < b * n
    ensures a < b
  {
  }

  /** Progress is monotone in the number of Done questions, for lists of the same length. */
  lemma ProgressMonotone(a: seq<Question>, b: seq<Question>)
    requires |a| == |b| && DoneCount(a) <= DoneCount(b)
    ensures CalculateProgress(a) <= CalculateProgress(b)
  {
    if |a| > 0 {
      RatioPercentMonotone(DoneCount(a), DoneCount(b), |a|);
    }
  }

  lemma RatioPercentMonotone(c1: nat, c2: nat, n: nat)
    requires 0 < n && c1 <= c2 <= n
    ensures RatioPercent(c1, n) <= RatioPercent(c2, n)
  {
    ScaledLe(RatioPercent(c1, n), RatioPercent(c2, n), n as real, c1 as real, c2 as real);
  }

  lemma ScaledLe(pa: real, pb: real, n: real, ca: real, cb: real)
    requires n > 0.0 && ca <= cb && pa * n == 100.0 * ca && pb * n == 100.0 * cb
    ensures pa <= pb
  {
    assert pa * n <= pb * n;
  }

  /** `calculateTopicProgress`: progress of all the topic's questions, subtopic after subtopic. */
  function CalculateTopicProgress(t: Topic): (r: real)
    ensures 0.0 <= r <= 100.0
  {
    CalculateProgress(TopicQuestions(t))
  }

  /** Done questions of a topic are the sum of its subtopics' Done questions. */
  lemma {:induction false} SubtopicsDoneCount(subs: seq<Subtopic>)
    ensures |SubtopicsQuestions(subs)| == SubtopicsSize(subs)
    ensures DoneCount(SubtopicsQuestions(subs)) == SubtopicsDone(subs)
  {
    if subs != [] {
      SubtopicsDoneCount(subs[1..]);
      DoneCountAppend(subs[0].questions, SubtopicsQuestions(subs[1..]));
    }
  }

  function SubtopicsSize(subs: seq<Subtopic>): nat {
    if subs == [] then 0 else |subs[0].questions| + SubtopicsSize(subs[1..])
  }

  function SubtopicsDone(subs: seq<Subtopic>): nat {
    if subs == [] then 0 else DoneCount(subs[0].questions) + SubtopicsDone(subs[1..])
  }

  /** A topic's progress weighs each subtopic by its size: it is the sum of the subtopics' Done
      counts over the sum of their sizes, not the mean of the subtopics' percentages. */
  lemma TopicProgressFromSubtopics(t: Topic)
    ensures SubtopicsDone(t.subtopics) <= SubtopicsSize(t.subtopics)
    ensures SubtopicsSize(t.subtopics) == 0 ==> CalculateTopicProgress(t) == 0.0
    ensures SubtopicsSize(t.subtopics) > 0 ==>
      CalculateTopicProgress(t) == RatioPercent(SubtopicsDone(t.subtopics), SubtopicsSize(t.subtopics))
  {
    SubtopicsDoneCount(t.subtopics);
  }

  /** A topic is at 100% exactly when it has a question and every question of every subtopic is Done;
      it is at 0% exactly when no question of any subtopic is Done. */
  lemma TopicProgressExtremes(t: Topic)
    ensures CalculateTopicProgress(t) == 100.0 <==>
      (exists s :: 0 <= s < |t.subtopics| && t.subtopics[s].questions != []) &&
      (forall s, k :: 0 <= s < |t.subtopics| && 0 <= k < |t.subtopics[s].questions| ==>
         t.subtopics[s].questions[k].status == Done)
    ensures CalculateTopicProgress(t) == 0.0 <==>
      forall s, k :: 0 <= s < |t.subtopics| && 0 <= k < |t.subtopics[s].questions| ==>
        t.subtopics[s].questions[k].status != Done
  {
    var all := TopicQuestions(t);
    var subs := t.subtopics;
    forall s, k | 0 <= s < |subs| && 0 <= k < |subs[s].questions|
      ensures subs[s].questions[k] in all
    {
      InSubtopicsQuestions(subs, s, k);
    }
    forall i | 0 <= i < |all|
      ensures exists s, k :: 0 <= s < |subs| && 0 <= k < |subs[s].questions| && subs[s].questions[k] == all[i]
    {
      FromSubtopicsQuestions(subs, all[i]);
    }
    if exists s :: 0 <= s < |subs| && subs[s].questions != [] {
      var s :| 0 <= s < |subs| && subs[s].questions != [];
      assert subs[s].questions[0] in all;
    }
  }
}
