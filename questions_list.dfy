/** The browse page's question list (components/questions-list.tsx): a search
    box that keeps the questions whose text contains the query, ignoring
    case, and for each card its answer count and the asker's initial. */
module QuestionsList {
  import opened Common
  import opened Text

  /** The `count` aggregate the questions query joins in as `answers(count)`. */
  datatype AnswerAggregate = AnswerAggregate(count: Option<int>)

  /** A question as the list receives it. */
  datatype Question = Question(id: string, content: string, answers: seq<AnswerAggregate>)

  /** The filter callback: the lower-cased text includes the lower-cased query. */
  function MatchesQuery(query: string): Question -> bool {
    (q: Question) => Contains(Lower(q.content), Lower(query))
  }

  /** `filteredQuestions`: the questions that match, in their original order. */
  function FilterQuestions(questions: seq<Question>, query: string): (r: seq<Question>)
    ensures |r| <= |questions| && IsSubsequence(r, questions)
    ensures forall q :: q in r <==> q in questions && Contains(Lower(q.content), Lower(query))
    ensures forall q :: multiset(r)[q] ==
              if Contains(Lower(q.content), Lower(query)) then multiset(questions)[q] else 0
  {
    Filter(questions, MatchesQuery(query))
  }

  /** A question is kept exactly when the lower-cased query occurs at some
      offset of its lower-cased text. */
  lemma KeptMeansOccurs(questions: seq<Question>, query: string, q: Question)
    ensures q in FilterQuestions(questions, query) <==>
              q in questions && exists k: nat :: OccursAt(Lower(q.content), Lower(query), k)
  {
    ContainsAt(Lower(q.content), Lower(query));
  }

  /** The empty search shows every question. */
  lemma EmptyQueryKeepsAll(questions: seq<Question>)
    ensures FilterQuestions(questions, "") == questions
  {
    forall i | 0 <= i < |questions| ensures MatchesQuery("")(questions[i]) {
      assert StartsWith(Lower(questions[i].content), Lower(""));
    }
    FilterKeepsAll(questions, MatchesQuery(""));
  }

  /** Matching ignores the case of the query: the query, its lower-cased and
      its upper-cased forms select the same questions. */
  lemma CaseInsensitive(questions: seq<Question>, query: string)
    ensures FilterQuestions(questions, Lower(query)) == FilterQuestions(questions, query)
    ensures FilterQuestions(questions, Upper(query)) == FilterQuestions(questions, query)
  {
    LowerNormalises(query);
    FilterAgrees(questions, MatchesQuery(Lower(query)), MatchesQuery(query));
    FilterAgrees(questions, MatchesQuery(Upper(query)), MatchesQuery(query));
  }

  /** `question.answers[0]?.count || 0`: the first aggregate's count, with a
      missing aggregate, a missing count or a zero count all shown as 0. */
  function AnswerCount(q: Question): (n: int)
    ensures q.answers == [] || q.answers[0].count.None? ==> n == 0
    ensures q.answers != [] && q.answers[0].count.Some? ==> n == q.answers[0].count.value
  {
    if q.answers != [] && q.answers[0].count.Some? && q.answers[0].count.value != 0
    then q.answers[0].count.value
    else 0
  }
}
