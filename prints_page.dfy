/**
 * The print distribution page: which events are print events, which students
 * may still receive a print for the chosen event, the name/roll search, and
 * the distribution log that "Mark as Distributed" prepends to.
 * Record ids and timestamps (`Date.now()`, `new Date()`) are parameters.
 */
module PrintsPage {
  import opened FundTypes
  import opened Text

  // ---------------------------------------------------------------------------
  // Print events

  predicate IsPrintEvent(e: Event)
  {
    Contains(Lower(e.name), "print")
  }

  /** printEvents: the events whose lower-cased name includes "print", in order. */
  function PrintEvents(events: seq<Event>): (r: seq<Event>)
    ensures forall e :: e in r <==> e in events && IsPrintEvent(e)
    ensures |r| <= |events|
  {
    if events == [] then []
    else
      var last := events[|events| - 1];
      PrintEvents(events[..|events| - 1]) + (if IsPrintEvent(last) then [last] else [])
  }

  /** An event named e.g. "Lab PRINTS" is offered; the category field plays no part. */
  lemma PrintEventByName(e: Event)
    requires "print" <= Lower(e.name)
    ensures PrintEvents([e]) == [e]
  {
    assert [e][..0] == [];
  }

  // ---------------------------------------------------------------------------
  // Eligible students

  /** `!selectedEventId` is true for undefined and for the empty string. */
  predicate EventChosen(selected: Option<string>)
  {
    selected.Some? && selected.value != ""
  }

  /** The log holds a record of `studentId` receiving a print for `eventId`. */
  ghost predicate HasRecord(ds: seq<PrintDistribution>, studentId: string, eventId: string)
  {
    exists i :: 0 <= i < |ds| && ds[i].studentId == studentId && ds[i].eventId == eventId
  }

  /** distributedStudentIds: the student ids of the records for `eventId`. */
  function DistributedIds(ds: seq<PrintDistribution>, eventId: string): (ids: seq<string>)
    ensures forall id :: id in ids <==> HasRecord(ds, id, eventId)
  {
    if ds == [] then []
    else
      var init, last := ds[..|ds| - 1], ds[|ds| - 1];
      assert forall id :: HasRecord(init, id, eventId) ==> HasRecord(ds, id, eventId) by {
        forall id | HasRecord(init, id, eventId) ensures HasRecord(ds, id, eventId) {
          var i :| 0 <= i < |init| && init[i].studentId == id && init[i].eventId == eventId;
          assert ds[i] == init[i];
        }
      }
      assert forall id :: HasRecord(ds, id, eventId) ==>
          HasRecord(init, id, eventId) || (last.studentId == id && last.eventId == eventId) by {
        forall id | HasRecord(ds, id, eventId)
          ensures HasRecord(init, id, eventId) || (last.studentId == id && last.eventId == eventId)
        {
          var i :| 0 <= i < |ds| && ds[i].studentId == id && ds[i].eventId == eventId;
          if i < |init| {
            assert init[i] == ds[i];
          }
        }
      }
      DistributedIds(init, eventId) + (if last.eventId == eventId then [last.studentId] else [])
  }

  /** `allStudents.filter(s => !ids.includes(s.id))`. */
  function WithoutIds(students: seq<Student>, ids: seq<string>): (r: seq<Student>)
    ensures forall s :: s in r <==> s in students && s.id !in ids
    ensures |r| <= |students|
  {
    if students == [] then []
    else
      var last := students[|students| - 1];
      WithoutIds(students[..|students| - 1], ids) + (if last.id in ids then [] else [last])
  }

  /** The filter depends on the ids only through membership. */
  lemma {:induction false} WithoutSameIds(students: seq<Student>, ids1: seq<string>, ids2: seq<string>)
    requires forall id :: id in ids1 <==> id in ids2
    ensures WithoutIds(students, ids1) == WithoutIds(students, ids2)
  {
    if students != [] {
      WithoutSameIds(students[..|students| - 1], ids1, ids2);
    }
  }

  /** The filter keeps the original order: it distributes over concatenation. */
  lemma {:induction false} WithoutIdsAppend(s1: seq<Student>, s2: seq<Student>, ids: seq<string>)
    decreases |s2|
    ensures WithoutIds(s1 + s2, ids) == WithoutIds(s1, ids) + WithoutIds(s2, ids)
  {
    if s2 == [] {
      assert s1 + s2 == s1;
    } else {
      var n := |s2| - 1;
      assert (s1 + s2)[..|s1 + s2| - 1] == s1 + s2[..n];
      WithoutIdsAppend(s1, s2[..n], ids);
    }
  }

  /**
   * studentsWhoPaid: with no event chosen, nobody; otherwise every student,
   * in order, except those the log already records for the chosen event.
   * Payment status is not consulted.
   */
  function StudentsWhoPaid(students: seq<Student>, ds: seq<PrintDistribution>, selected: Option<string>)
    : (r: seq<Student>)
    ensures !EventChosen(selected) ==> r == []
    ensures EventChosen(selected) ==>
      forall s :: s in r <==> s in students && !HasRecord(ds, s.id, selected.value)
  {
    if !EventChosen(selected) then []
    else WithoutIds(students, DistributedIds(ds, selected.value))
  }

  /** A record for another event never removes anyone from the eligible list. */
  lemma OtherEventRecordsIgnored(students: seq<Student>, ds: seq<PrintDistribution>, d: PrintDistribution, eventId: string)
    requires d.eventId != eventId
    ensures StudentsWhoPaid(students, [d] + ds, Some(eventId)) == StudentsWhoPaid(students, ds, Some(eventId))
  {
    forall id ensures HasRecord([d] + ds, id, eventId) <==> HasRecord(ds, id, eventId) {
      if HasRecord([d] + ds, id, eventId) {
        var i :| 0 <= i < |[d] + ds| && ([d] + ds)[i].studentId == id && ([d] + ds)[i].eventId == eventId;
        assert ds[i - 1] == ([d] + ds)[i];
      }
      if HasRecord(ds, id, eventId) {
        var i :| 0 <= i < |ds| && ds[i].studentId == id && ds[i].eventId == eventId;
        assert ([d] + ds)[i + 1] == ds[i];
      }
    }
    WithoutSameIds(students, DistributedIds([d] + ds, eventId), DistributedIds(ds, eventId));
  }

  // ---------------------------------------------------------------------------
  // Search

  /** A student matches when the lower-cased query occurs in the lower-cased name or roll number. */
  predicate Matches(s: Student, query: string)
  {
    Contains(Lower(s.name), Lower(query)) || Contains(Lower(s.rollNo), Lower(query))
  }

  function MatchingStudents(students: seq<Student>, query: string): (r: seq<Student>)
    ensures forall s :: s in r <==> s in students && Matches(s, query)
    ensures |r| <= |students|
  {
    if students == [] then []
    else
      var last := students[|students| - 1];
      MatchingStudents(students[..|students| - 1], query) + (if Matches(last, query) then [last] else [])
  }

  /** filteredStudents: an empty search shows the eligible list as it is. */
  function FilteredStudents(eligible: seq<Student>, search: string): (r: seq<Student>)
    ensures search == "" ==> r == eligible
    ensures search != "" ==> forall s :: s in r <==> s in eligible && Matches(s, search)
  {
    if search == "" then eligible else MatchingStudents(eligible, search)
  }

  // ---------------------------------------------------------------------------
  // The log

  /** The record handleDistribute builds; `id` and `at` stand for the clock-derived values. */
  function NewRecord(s: Student, eventId: string, id: string, at: string): (d: PrintDistribution)
    ensures d.studentId == s.id && d.studentName == s.name && d.studentRoll == s.rollNo
    ensures d.eventId == eventId && d.id == id && d.distributedAt == at
  {
    PrintDistribution(id, s.id, s.name, s.rollNo, eventId, at)
  }

  /** Once the record is prepended, the student is no longer eligible for that event, and nobody else drops out. */
  lemma DistributedNoLongerEligible(students: seq<Student>, ds: seq<PrintDistribution>, d: PrintDistribution)
    requires d.eventId != ""
    ensures forall s :: s in StudentsWhoPaid(students, [d] + ds, Some(d.eventId)) ==> s.id != d.studentId
    ensures forall s :: s in StudentsWhoPaid(students, ds, Some(d.eventId)) && s.id != d.studentId ==>
              s in StudentsWhoPaid(students, [d] + ds, Some(d.eventId))
  {
    assert ([d] + ds)[0] == d;
    forall s | s in StudentsWhoPaid(students, ds, Some(d.eventId)) && s.id != d.studentId
      ensures !HasRecord([d] + ds, s.id, d.eventId)
    {
      forall i | 0 < i < |[d] + ds| ensures ([d] + ds)[i] == ds[i - 1] { }
    }
  }

  /** No (student, event) pair is recorded twice. */
  ghost predicate NoDuplicatePairs(ds: seq<PrintDistribution>)
  {
    forall i, j :: 0 <= i < j < |ds| ==>
      ds[i].studentId != ds[j].studentId || ds[i].eventId != ds[j].eventId
  }

  /** Distributing to an eligible student keeps the log free of duplicate pairs. */
  lemma EligibleDistributionKeepsLogUnique(students: seq<Student>, ds: seq<PrintDistribution>,
                                          s: Student, eventId: string, id: string, at: string)
    requires NoDuplicatePairs(ds)
    requires s in StudentsWhoPaid(students, ds, Some(eventId))
    ensures NoDuplicatePairs([NewRecord(s, eventId, id, at)] + ds)
  {
    var d := NewRecord(s, eventId, id, at);
    var ds' := [d] + ds;
    forall i, j | 0 <= i < j < |ds'|
      ensures ds'[i].studentId != ds'[j].studentId || ds'[i].eventId != ds'[j].eventId
    {
      assert ds'[j] == ds[j - 1];
      if i > 0 {
        assert ds'[i] == ds[i - 1];
      } else {
        assert !(ds[j - 1].studentId == s.id && ds[j - 1].eventId == eventId);
      }
    }
  }

  /** How many records the log holds for one (student, event) pair. */
  function CountRecords(ds: seq<PrintDistribution>, studentId: string, eventId: string): (n: nat)
    ensures n <= |ds|
    ensures n == 0 <==> !HasRecord(ds, studentId, eventId)
  {
    if ds == [] then 0
    else
      var rest := CountRecords(ds[1..], studentId, eventId);
      assert forall i :: 0 <= i < |ds| - 1 ==> ds[1..][i] == ds[i + 1];
      assert HasRecord(ds[1..], studentId, eventId) ==> HasRecord(ds, studentId, eventId);
      (if ds[0].studentId == studentId && ds[0].eventId == eventId then 1 else 0) + rest
  }

  // ---------------------------------------------------------------------------
  // The page state

  class PrintPage {
    /** The static student and event lists the page imports. */
    const students: seq<Student>
    const events: seq<Event>

    var selectedStudent: Option<Student>
    var searchValue: string
    var distributions: seq<PrintDistribution>
    var selectedEventId: Option<string>

    constructor (allStudents: seq<Student>, allEvents: seq<Event>, initialDistributions: seq<PrintDistribution>)
      ensures students == allStudents && events == allEvents && distributions == initialDistributions
      ensures selectedStudent == None && searchValue == "" && selectedEventId == None
    {
      students := allStudents;
      events := allEvents;
      selectedStudent := None;
      searchValue := "";
      distributions := initialDistributions;
      selectedEventId := None;
    }

    /** The events the select offers. */
    function OfferedEvents(): seq<Event>
    {
      PrintEvents(events)
    }

    /** studentsWhoPaid for the current state. */
    function Eligible(): seq<Student>
      reads this
    {
      StudentsWhoPaid(students, distributions, selectedEventId)
    }

    /** filteredStudents for the current state. */
    function Shown(): seq<Student>
      reads this
    {
      FilteredStudents(Eligible(), searchValue)
    }

    /** The event select, which lists only print events; the chosen student is kept. */
    method SelectEvent(eventId: string)
      requires exists e :: e in OfferedEvents() && e.id == eventId
      modifies this`selectedEventId
      ensures selectedEventId == Some(eventId)
    {
      selectedEventId := Some(eventId);
    }

    /** The search input. */
    method Search(text: string)
      modifies this`searchValue
      ensures searchValue == text
    {
      searchValue := text;
    }

    /** Picking a student from the shown list. */
    method SelectStudent(s: Student)
      requires s in Shown()
      modifies this`selectedStudent
      ensures selectedStudent == Some(s)
    {
      selectedStudent := Some(s);
    }

    /**
     * handleDistribute: with a student and an event chosen, prepend one
     * record and clear the student and the search; otherwise do nothing.
     */
    method Distribute(id: string, at: string)
      modifies this`distributions, this`selectedStudent, this`searchValue
      ensures old(selectedStudent).Some? && EventChosen(selectedEventId) ==>
        distributions == [NewRecord(old(selectedStudent).value, selectedEventId.value, id, at)] + old(distributions) &&
        selectedStudent == None && searchValue == ""
      ensures !(old(selectedStudent).Some? && EventChosen(selectedEventId)) ==>
        distributions == old(distributions) && selectedStudent == old(selectedStudent) &&
        searchValue == old(searchValue)
    {
      if selectedStudent.Some? && EventChosen(selectedEventId) {
        var d := NewRecord(selectedStudent.value, selectedEventId.value, id, at);
        distributions := [d] + distributions;
        selectedStudent := None;
        searchValue := "";
      }
    }

    /**
     * Distribute guarded by the eligible list: a student the log already
     * records for the chosen event is refused, so the log never holds the
     * same (student, event) pair twice.
     */
    method DistributeEligible(id: string, at: string) returns (done: bool)
      modifies this`distributions, this`selectedStudent, this`searchValue
      ensures done <==> old(selectedStudent).Some? && EventChosen(selectedEventId) &&
                        old(selectedStudent).value in old(Eligible())
      ensures done ==>
        distributions == [NewRecord(old(selectedStudent).value, selectedEventId.value, id, at)] + old(distributions) &&
        selectedStudent == None && searchValue == ""
      ensures !done ==>
        distributions == old(distributions) && selectedStudent == old(selectedStudent) &&
        searchValue == old(searchValue)
      ensures NoDuplicatePairs(old(distributions)) ==> NoDuplicatePairs(distributions)
    {
      done := selectedStudent.Some? && EventChosen(selectedEventId) && selectedStudent.value in Eligible();
      if done {
        var s := selectedStudent.value;
        if NoDuplicatePairs(distributions) {
          EligibleDistributionKeepsLogUnique(students, distributions, s, selectedEventId.value, id, at);
        }
        distributions := [NewRecord(s, selectedEventId.value, id, at)] + distributions;
        selectedStudent := None;
        searchValue := "";
      }
    }
  }

  lemma PrintPair(a: Event, b: Event)
    requires IsPrintEvent(a) && IsPrintEvent(b)
    ensures PrintEvents([a, b]) == [a, b]
  {
    assert [a, b][..1] == [a] && [a][..0] == [];
  }

  lemma FirstStudentEligible(s: Student, eventId: string)
    requires eventId != ""
    ensures s in StudentsWhoPaid([s], [], Some(eventId))
  {
  }

  /**
   * The page as written lets a student receive a second print for the same
   * event: pick the student under one print event, switch the select to a
   * print event they already received a print for, and press the button.
   * This holds for every student and every two distinct print events.
   */
  method StaleSelectionDuplicates(s: Student, a: Event, b: Event) returns (copies: nat)
    requires IsPrintEvent(a) && IsPrintEvent(b) && a.id != "" && b.id != "" && a.id != b.id
    ensures copies == 2
  {
    var page := FirstPrintHandedOut(s, a, b);
    page.SelectEvent(a.id);
    assert s in page.Shown();
    page.SelectStudent(s);
    page.SelectEvent(b.id);
    assert s !in page.Eligible();
    page.Distribute("DIST-2", "t2");
    copies := CountRecords(page.distributions, s.id, b.id);
  }

  /** A page offering the print events `a` and `b`, after `s` received the print for `b`. */
  method FirstPrintHandedOut(s: Student, a: Event, b: Event) returns (page: PrintPage)
    requires IsPrintEvent(a) && IsPrintEvent(b) && b.id != ""
    ensures fresh(page)
    ensures page.students == [s] && page.OfferedEvents() == [a, b]
    ensures page.distributions == [NewRecord(s, b.id, "DIST-1", "t1")]
    ensures page.selectedStudent == None && page.searchValue == ""
  {
    PrintPair(a, b);
    page := new PrintPage([s], [a, b], []);
    assert b in page.OfferedEvents();
    page.SelectEvent(b.id);
    FirstStudentEligible(s, b.id);
    assert page.Shown() == page.Eligible() == StudentsWhoPaid([s], [], Some(b.id));
    page.SelectStudent(s);
    page.Distribute("DIST-1", "t1");
  }

  /** Events named like prints exist, so the scenario above can be entered. */
  lemma PrintNamed(e: Event)
    requires e.name == "Lab Print A"
    ensures IsPrintEvent(e)
  {
    var r := Lower(e.name);
    assert r[4..9] == "print";
    assert OccursAt(r, "print", 4);
    ContainsIffOccurs(r, "print");
  }
}
