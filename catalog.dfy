/** The tracker's data: a catalog of topics, each holding subtopics, each holding questions,
    as `dsaData` holds it in the dashboard page. */
module Catalog {
  import opened Wrappers

  datatype Status = NotStarted | InProgress | Done
  datatype Difficulty = Easy | Medium | Hard
  datatype Level = L1 | L2 | L3 | L4

  /** One practice problem. `level`, `starred` and `note` may be absent from a stored record. */
  datatype Question = Question(
    id: string,
    name: string,
    difficulty: Difficulty,
    level: Option<Level>,
    problemLink: string,
    questionLink: string,
    gfgLink: string,
    youtubeLink: string,
    status: Status,
    starred: Option<bool>,
    note: Option<string>)
  {
    /** JavaScript truthiness of `question.starred`. */
    predicate IsStarred() {
      starred == Some(true)
    }
  }

  datatype Subtopic = Subtopic(title: string, questions: seq<Question>)

  datatype Topic = Topic(topic: string, subtopics: seq<Subtopic>)

  /** `subtopics.flatMap(subtopic => subtopic.questions)` */
  function SubtopicsQuestions(subs: seq<Subtopic>): seq<Question> {
    if subs == [] then [] else subs[0].questions + SubtopicsQuestions(subs[1..])
  }

  function TopicQuestions(t: Topic): seq<Question> {
    SubtopicsQuestions(t.subtopics)
  }

  /** Every question of the catalog, topic by topic and subtopic by subtopic. */
  function AllQuestions(data: seq<Topic>): seq<Question> {
    if data == [] then [] else TopicQuestions(data[0]) + AllQuestions(data[1..])
  }

  /** A question of a subtopic is a question of its topic. */
  lemma {:induction false} InSubtopicsQuestions(subs: seq<Subtopic>, s: nat, k: nat)
    requires s < |subs| && k < |subs[s].questions|
    ensures subs[s].questions[k] in SubtopicsQuestions(subs)
  {
    if s > 0 {
      InSubtopicsQuestions(subs[1..], s - 1, k);
    }
  }

  /** A question of any subtopic is a question of the flattened catalog. */
  lemma {:induction false} InAllQuestions(data: seq<Topic>, t: nat, s: nat, k: nat)
    requires t < |data| && s < |data[t].subtopics| && k < |data[t].subtopics[s].questions|
    ensures data[t].subtopics[s].questions[k] in AllQuestions(data)
  {
    if t == 0 {
      InSubtopicsQuestions(data[0].subtopics, s, k);
    } else {
      InAllQuestions(data[1..], t - 1, s, k);
    }
  }

  /** A question of the flattened topic comes from one of its subtopics. */
  lemma {:induction false} FromSubtopicsQuestions(subs: seq<Subtopic>, q: Question)
    requires q in SubtopicsQuestions(subs)
    ensures exists s, k :: 0 <= s < |subs| && 0 <= k < |subs[s].questions| && subs[s].questions[k] == q
  {
    if q in subs[0].questions {
      var k :| 0 <= k < |subs[0].questions| && subs[0].questions[k] == q;
      assert subs[0].questions[k] == q;
    } else {
      FromSubtopicsQuestions(subs[1..], q);
      var s, k :| 0 <= s < |subs[1..]| && 0 <= k < |subs[1..][s].questions| && subs[1..][s].questions[k] == q;
      assert subs[s + 1].questions[k] == q;
    }
  }

  // ----- seed data and its normalisation -----

  function SeedQuestion(id: string, name: string, difficulty: Difficulty, links: seq<string>,
                        status: Status, starred: bool, note: string): Question
    requires |links| == 4
  {
    Question(id, name, difficulty, None, links[0], links[1], links[2], links[3], status, Some(starred), Some(note))
  }

  /** The seed catalog shipped with the tracker (two topics, four questions, no `level` fields). */
  function DefaultData(): seq<Topic> {
    [ Topic("Basics", [
        Subtopic("Time and Space Complexity", [
          SeedQuestion("BASICS_1", "What is Time Complexity?", Easy,
            ["https://example.com/time-complexity", "https://leetcode.com/problem-set/time-complexity",
             "https://practice.geeksforgeeks.org/problems/time-complexity", "https://youtube.com/watch?v=xyz123"],
            Done, false, ""),
          SeedQuestion("BASICS_2", "What is Space Complexity?", Easy, ["", "", "", ""], NotStarted, false, "")])]),
      Topic("Arrays", [
        Subtopic("Basic Array Problems", [
          SeedQuestion("ARR_1", "Find the Largest Element", Easy,
            ["https://leetcode.com/problems/largest-element/", "https://leetcode.com/problems/largest-element/",
             "https://practice.geeksforgeeks.org/problems/largest-element-in-array4009", "https://youtube.com/watch?v=abc456"],
            InProgress, false, ""),
          SeedQuestion("ARR_2", "Check if Array is Sorted", Medium, ["", "", "", ""], NotStarted, true,
            "Watch NeetCode solution")])]) ]
  }
}
