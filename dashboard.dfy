/** What the dashboard derives from the store's list of completed week ids: course completion,
    the per-week completed and locked flags, and the certificate's file name. */
module Dashboard {
  import opened Types
  import opened WeekList

  /** The congratulation banner's test: as many completed ids as the course has weeks. */
  predicate IsCourseComplete(completedWeeks: seq<int>, course: Course) {
    |completedWeeks| == |course.weeks|
  }

  /** A week shows its check mark when its id is among the completed ones. */
  predicate IsCompleted(completedWeeks: seq<int>, week: Week) {
    week.id in completedWeeks
  }

  /** Every week but the first is locked until the week before it is completed. */
  predicate IsLocked(completedWeeks: seq<int>, weeks: seq<Week>, index: nat)
    requires index < |weeks|
  {
    index > 0 && weeks[index - 1].id !in completedWeeks
  }

  lemma FirstWeekNeverLocked(completedWeeks: seq<int>, weeks: seq<Week>)
    requires |weeks| > 0
    ensures !IsLocked(completedWeeks, weeks, 0)
  {
  }

  /** Completing more weeks never locks a week that was unlocked. */
  lemma UnlockingIsMonotone(completedWeeks: seq<int>, more: seq<int>, weeks: seq<Week>, index: nat)
    requires index < |weeks|
    requires forall x :: x in completedWeeks ==> x in more
    ensures !IsLocked(completedWeeks, weeks, index) ==> !IsLocked(more, weeks, index)
  {
  }

  /** Marking a week as completed shows it completed and unlocks the week after it. */
  lemma CompletingUnlocksNext(completedWeeks: seq<int>, weeks: seq<Week>, index: nat)
    requires index + 1 < |weeks|
    ensures IsCompleted(WithWeek(completedWeeks, weeks[index].id), weeks[index])
    ensures !IsLocked(WithWeek(completedWeeks, weeks[index].id), weeks, index + 1)
  {
  }

  /** Every completed id is the id of some week of the course. */
  predicate OnlyCourseIds(completedWeeks: seq<int>, weeks: seq<Week>) {
    forall x :: x in completedWeeks ==> exists i :: 0 <= i < |weeks| && weeks[i].id == x
  }

  /** Marking the id of a course week keeps the list to course ids, so with the store's invariant
      the completion lemmas below hold after every `CompleteWeek` the course page triggers. */
  lemma CompletingKeepsCourseIds(completedWeeks: seq<int>, weeks: seq<Week>, index: nat)
    requires index < |weeks|
    requires OnlyCourseIds(completedWeeks, weeks)
    ensures OnlyCourseIds(WithWeek(completedWeeks, weeks[index].id), weeks)
  {
  }

  predicate DistinctIds(weeks: seq<Week>) {
    forall i, j :: 0 <= i < j < |weeks| ==> weeks[i].id != weeks[j].id
  }

  function Elements(s: seq<int>): set<int> {
    set x | x in s
  }

  function WeekIds(weeks: seq<Week>): set<int> {
    set i | 0 <= i < |weeks| :: weeks[i].id
  }

  lemma {:induction false} ElementsCard(s: seq<int>)
    ensures |Elements(s)| <= |s|
    ensures Distinct(s) ==> |Elements(s)| == |s|
  {
    if s != [] {
      var t := s[1..];
      assert s == [s[0]] + t;
      assert Elements(s) == {s[0]} + Elements(t);
      ElementsCard(t);
      assert Distinct(s) ==> Distinct(t) && s[0] !in Elements(t);
    }
  }

  lemma {:induction false} WeekIdsCard(weeks: seq<Week>)
    ensures |WeekIds(weeks)| <= |weeks|
    ensures DistinctIds(weeks) ==> |WeekIds(weeks)| == |weeks|
  {
    if weeks != [] {
      var rest := weeks[1..];
      assert WeekIds(weeks) == {weeks[0].id} + WeekIds(rest) by {
        forall x | x in WeekIds(weeks) ensures x in {weeks[0].id} + WeekIds(rest) {
          var i :| 0 <= i < |weeks| && weeks[i].id == x;
          if i > 0 { assert rest[i - 1] == weeks[i]; }
        }
        forall x | x in WeekIds(rest) ensures x in WeekIds(weeks) {
          var i :| 0 <= i < |rest| && rest[i].id == x;
          assert weeks[i + 1] == rest[i];
        }
      }
      WeekIdsCard(rest);
      assert DistinctIds(weeks) ==> DistinctIds(rest) && weeks[0].id !in WeekIds(rest) by {
        if DistinctIds(weeks) {
          forall i, j | 0 <= i < j < |rest| ensures rest[i].id != rest[j].id {
            assert rest[i] == weeks[i + 1] && rest[j] == weeks[j + 1];
          }
          forall x | x in WeekIds(rest) ensures x != weeks[0].id {
            var i :| 0 <= i < |rest| && rest[i].id == x;
            assert rest[i] == weeks[i + 1];
          }
        }
      }
    }
  }

  /** A subset is no larger than its superset, and one as large is the whole superset. */
  lemma SubsetCard(a: set<int>, b: set<int>)
    requires a <= b
    ensures |a| <= |b|
    ensures |a| == |b| ==> a == b
  {
    assert b == a + (b - a);
    assert a * (b - a) == {};
  }

  /** With the list the store keeps (no repetitions, course ids only), the banner's length test
      means every week of the course shows as completed. */
  lemma CompleteMeansEveryWeekCompleted(completedWeeks: seq<int>, course: Course)
    requires Distinct(completedWeeks)
    requires OnlyCourseIds(completedWeeks, course.weeks)
    requires IsCourseComplete(completedWeeks, course)
    ensures forall i :: 0 <= i < |course.weeks| ==> IsCompleted(completedWeeks, course.weeks[i])
  {
    var done, all := Elements(completedWeeks), WeekIds(course.weeks);
    assert done <= all by {
      forall x | x in done ensures x in all {
        var i :| 0 <= i < |course.weeks| && course.weeks[i].id == x;
      }
    }
    ElementsCard(completedWeeks);
    WeekIdsCard(course.weeks);
    SubsetCard(done, all);
    forall i | 0 <= i < |course.weeks| ensures IsCompleted(completedWeeks, course.weeks[i]) {
      assert course.weeks[i].id in all;
    }
  }

  /** Conversely, when week ids are distinct, every week shown completed raises the banner. */
  lemma EveryWeekCompletedMeansComplete(completedWeeks: seq<int>, course: Course)
    requires Distinct(completedWeeks)
    requires DistinctIds(course.weeks)
    requires OnlyCourseIds(completedWeeks, course.weeks)
    requires forall i :: 0 <= i < |course.weeks| ==> IsCompleted(completedWeeks, course.weeks[i])
    ensures IsCourseComplete(completedWeeks, course)
  {
    var done, all := Elements(completedWeeks), WeekIds(course.weeks);
    assert done == all by {
      forall x | x in done ensures x in all {
        var i :| 0 <= i < |course.weeks| && course.weeks[i].id == x;
      }
      forall x | x in all ensures x in done {
        var i :| 0 <= i < |course.weeks| && course.weeks[i].id == x;
        assert IsCompleted(completedWeeks, course.weeks[i]);
      }
    }
    ElementsCard(completedWeeks);
    WeekIdsCard(course.weeks);
  }

  function PlainWeek(id: int): Week {
    Week(id, "", "", [], [], [], Assignment("", ""))
  }

  /** The banner counts ids, it does not compare them: a list of two ids, one of which is no
      week of a two-week course, raises it although the second week is not completed. */
  lemma LengthTestIgnoresIds()
    ensures var course := Course("", "", [PlainWeek(1), PlainWeek(2)]);
      IsCourseComplete([1, 7], course) && !IsCompleted([1, 7], course.weeks[1])
  {
  }

  /** The characters JavaScript's `\s` class matches. */
  predicate IsWhitespace(c: char) {
    ('\U{0009}' <= c <= '\U{000D}') || c == ' ' || c == '\U{00A0}' || c == '\U{1680}' ||
    ('\U{2000}' <= c <= '\U{200A}') || c == '\U{2028}' || c == '\U{2029}' ||
    c == '\U{202F}' || c == '\U{205F}' || c == '\U{3000}' || c == '\U{FEFF}'
  }

  /** Every whitespace character of the name replaced by an underscore. */
  function ReplaceWhitespace(s: string): (r: string)
    ensures |r| == |s|
    ensures forall i :: 0 <= i < |r| ==> !IsWhitespace(r[i])
    ensures forall i :: 0 <= i < |s| ==> !IsWhitespace(s[i]) ==> r[i] == s[i]
    ensures forall i :: 0 <= i < |s| ==> IsWhitespace(s[i]) ==> r[i] == '_'
  {
    if s == [] then []
    else [if IsWhitespace(s[0]) then '_' else s[0]] + ReplaceWhitespace(s[1..])
  }

  /** The certificate's file name: a fixed frame around the student's name with every
      whitespace character replaced, all other characters kept in place. */
  function CertificateFileName(name: string): (r: string)
    ensures |r| == |name| + 16
    ensures r[..12] == "Certificate-" && r[12 + |name|..] == ".pdf"
    ensures forall i :: 12 <= i < 12 + |name| ==> !IsWhitespace(r[i])
    ensures forall i :: 12 <= i < 12 + |name| ==> !IsWhitespace(name[i - 12]) ==> r[i] == name[i - 12]
    ensures forall i :: 12 <= i < 12 + |name| ==> IsWhitespace(name[i - 12]) ==> r[i] == '_'
  {
    "Certificate-" + ReplaceWhitespace(name) + ".pdf"
  }
}
