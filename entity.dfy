/**
 * The Doctrine entities of the results API (PHP namespace App\Entity): Result, Subject,
 * ExamSession, and the part of User they refer to.  Each is a class whose setters
 * overwrite one field; the collection-valued fields of Subject and ExamSession are
 * ordered sequences of object references, updated through the operations of module
 * Collection, and their add/remove methods also write the other side of the link.
 */
module Entity {
  import opened Wrappers
  import opened Collection

  /** A point in time as PHP's `DateTimeImmutable` holds it; its calendar structure is not modelled. */
  datatype DateTime = DateTime(stamp: int)

  /** App\Entity\User, of which the results API uses only the identifier. */
  class User {
    const id: int

    constructor (id: int)
      ensures this.id == id
    {
      this.id := id;
    }
  }

  /** Every field of a Result, as one value: the row Doctrine writes for it. */
  datatype ResultRow = ResultRow(
    id: Option<int>,
    scoreValue: real,
    passed: bool,
    gradedAt: DateTime,
    attemptNumber: int,
    remarks: string,
    user: User?,
    subject: Subject?)

  /** App\Entity\Result: one graded attempt; a plain record whose getters are the field reads. */
  class Result {
    var id: Option<int>
    var scoreValue: real
    var passed: bool
    var gradedAt: DateTime
    var attemptNumber: int
    var remarks: string
    var user: User?
    var subject: Subject?

    function Row(): ResultRow
      reads this
    {
      ResultRow(id, scoreValue, passed, gradedAt, attemptNumber, remarks, user, subject)
    }

    /** A new Result has no identifier yet, no owner and no subject. */
    constructor ()
      ensures id == None && user == null && subject == null
    {
      id := None;
      user := null;
      subject := null;
    }

    method SetScoreValue(scoreValue: real)
      modifies this
      ensures Row() == old(Row()).(scoreValue := scoreValue)
    {
      this.scoreValue := scoreValue;
    }

    method SetPassed(passed: bool)
      modifies this
      ensures Row() == old(Row()).(passed := passed)
    {
      this.passed := passed;
    }

    method SetGradedAt(gradedAt: DateTime)
      modifies this
      ensures Row() == old(Row()).(gradedAt := gradedAt)
    {
      this.gradedAt := gradedAt;
    }

    method SetAttemptNumber(attemptNumber: int)
      modifies this
      ensures Row() == old(Row()).(attemptNumber := attemptNumber)
    {
      this.attemptNumber := attemptNumber;
    }

    method SetRemarks(remarks: string)
      modifies this
      ensures Row() == old(Row()).(remarks := remarks)
    {
      this.remarks := remarks;
    }

    /** Accepts null, although the mapping declares the join column non-nullable. */
    method SetUser(user: User?)
      modifies this
      ensures Row() == old(Row()).(user := user)
    {
      this.user := user;
    }

    /** Accepts null, although the mapping declares the join column non-nullable. */
    method SetSubject(subject: Subject?)
      modifies this
      ensures Row() == old(Row()).(subject := subject)
    {
      this.subject := subject;
    }
  }

  /** The column fields of a Subject (everything but its two collections). */
  datatype SubjectColumns = SubjectColumns(
    id: Option<int>,
    subjectCode: string,
    title: string,
    credits: int,
    active: bool)

  /** App\Entity\Subject, with its one-to-many `results` and many-to-many `examSessions`. */
  class Subject {
    var id: Option<int>
    var subjectCode: string
    var title: string
    var credits: int
    var active: bool
    var results: seq<Result>
    var examSessions: seq<ExamSession>

    function Columns(): SubjectColumns
      reads this
    {
      SubjectColumns(id, subjectCode, title, credits, active)
    }

    constructor ()
      ensures id == None && results == [] && examSessions == []
    {
      id := None;
      results := [];
      examSessions := [];
    }

    method SetSubjectCode(subjectCode: string)
      modifies this
      ensures Columns() == old(Columns()).(subjectCode := subjectCode)
      ensures results == old(results) && examSessions == old(examSessions)
    {
      this.subjectCode := subjectCode;
    }

    method SetTitle(title: string)
      modifies this
      ensures Columns() == old(Columns()).(title := title)
      ensures results == old(results) && examSessions == old(examSessions)
    {
      this.title := title;
    }

    method SetCredits(credits: int)
      modifies this
      ensures Columns() == old(Columns()).(credits := credits)
      ensures results == old(results) && examSessions == old(examSessions)
    {
      this.credits := credits;
    }

    method SetActive(active: bool)
      modifies this
      ensures Columns() == old(Columns()).(active := active)
      ensures results == old(results) && examSessions == old(examSessions)
    {
      this.active := active;
    }

    /**
     * Adds `result` unless it is already there, and then points the result at this
     * subject; adding a result that is already contained changes nothing.
     */
    method AddResult(result: Result)
      modifies this, result
      ensures results == AddIfAbsent(old(results), result)
      ensures result in results
      ensures NoDuplicates(old(results)) ==> NoDuplicates(results)
      ensures old(result in results) ==> result.Row() == old(result.Row())
      ensures !old(result in results) ==> result.Row() == old(result.Row()).(subject := this)
      ensures Columns() == old(Columns()) && examSessions == old(examSessions)
    {
      AddIfAbsentMembers(results, result);
      if NoDuplicates(results) { AddIfAbsentNoDuplicates(results, result); }
      if result !in results {
        results := results + [result];
        result.SetSubject(this);
      }
    }

    /**
     * Removes `result`; only when it was contained and still points at this subject is
     * its subject cleared.  Removing an absent result changes neither side.
     */
    method RemoveResult(result: Result)
      modifies this, result
      ensures results == RemoveElement(old(results), result).rest
      ensures NoDuplicates(old(results)) ==> result !in results && NoDuplicates(results)
      ensures forall r :: r != result ==> (r in results <==> r in old(results))
      ensures result.Row() ==
        if old(result in results) && old(result.subject) == this
        then old(result.Row()).(subject := null)
        else old(result.Row())
      ensures Columns() == old(Columns()) && examSessions == old(examSessions)
    {
      if NoDuplicates(results) { RemoveElementNoDuplicates(results, result); }
      RemoveElementKeepsOthers(results, result);
      var removal := RemoveElement(results, result);
      results := removal.rest;
      if removal.removed {
        if result.subject == this {
          result.SetSubject(null);
        }
      }
    }

    /** Adds `examSession` unless it is already there; the session's own `subjects` is not touched. */
    method AddExamSession(examSession: ExamSession)
      modifies this
      ensures examSessions == AddIfAbsent(old(examSessions), examSession)
      ensures examSession in examSessions
      ensures NoDuplicates(old(examSessions)) ==> NoDuplicates(examSessions)
      ensures Columns() == old(Columns()) && results == old(results)
    {
      AddIfAbsentMembers(examSessions, examSession);
      if NoDuplicates(examSessions) { AddIfAbsentNoDuplicates(examSessions, examSession); }
      if examSession !in examSessions {
        examSessions := examSessions + [examSession];
      }
    }

    /** Removes `examSession` and leaves every other member of `examSessions` in place. */
    method RemoveExamSession(examSession: ExamSession)
      modifies this
      ensures examSessions == RemoveElement(old(examSessions), examSession).rest
      ensures NoDuplicates(old(examSessions)) ==> examSession !in examSessions && NoDuplicates(examSessions)
      ensures forall e :: e != examSession ==> (e in examSessions <==> e in old(examSessions))
      ensures Columns() == old(Columns()) && results == old(results)
    {
      if NoDuplicates(examSessions) { RemoveElementNoDuplicates(examSessions, examSession); }
      RemoveElementKeepsOthers(examSessions, examSession);
      examSessions := RemoveElement(examSessions, examSession).rest;
    }
  }

  /** The column fields of an ExamSession (everything but its `subjects`). */
  datatype SessionColumns = SessionColumns(
    id: Option<int>,
    sessionName: string,
    sessionDate: DateTime,
    published: bool,
    capacityLimit: int)

  /** App\Entity\ExamSession, the owning side of the many-to-many link with Subject. */
  class ExamSession {
    var id: Option<int>
    var sessionName: string
    var sessionDate: DateTime
    var published: bool
    var capacityLimit: int
    var subjects: seq<Subject>

    function Columns(): SessionColumns
      reads this
    {
      SessionColumns(id, sessionName, sessionDate, published, capacityLimit)
    }

    /** The link with `subject` is two-sided: it is on both sides or on neither. */
    ghost predicate LinkedWith(subject: Subject)
      reads this, subject
    {
      subject in subjects <==> this in subject.examSessions
    }

    constructor ()
      ensures id == None && subjects == []
    {
      id := None;
      subjects := [];
    }

    method SetSessionName(sessionName: string)
      modifies this
      ensures Columns() == old(Columns()).(sessionName := sessionName) && subjects == old(subjects)
    {
      this.sessionName := sessionName;
    }

    method SetSessionDate(sessionDate: DateTime)
      modifies this
      ensures Columns() == old(Columns()).(sessionDate := sessionDate) && subjects == old(subjects)
    {
      this.sessionDate := sessionDate;
    }

    method SetPublished(published: bool)
      modifies this
      ensures Columns() == old(Columns()).(published := published) && subjects == old(subjects)
    {
      this.published := published;
    }

    method SetCapacityLimit(capacityLimit: int)
      modifies this
      ensures Columns() == old(Columns()).(capacityLimit := capacityLimit) && subjects == old(subjects)
    {
      this.capacityLimit := capacityLimit;
    }

    /**
     * Adds `subject` unless it is already there, and then adds this session to the
     * subject's `examSessions`.  A second call with the same subject changes nothing,
     * and a link that was two-sided before is present on both sides afterwards.
     */
    method AddSubject(subject: Subject)
      modifies this, subject
      ensures subjects == AddIfAbsent(old(subjects), subject)
      ensures subject.examSessions ==
        if old(subject in subjects) then old(subject.examSessions)
        else AddIfAbsent(old(subject.examSessions), this)
      ensures NoDuplicates(old(subjects)) ==> NoDuplicates(subjects)
      ensures NoDuplicates(old(subject.examSessions)) ==> NoDuplicates(subject.examSessions)
      ensures old(LinkedWith(subject)) ==> subject in subjects && this in subject.examSessions
      ensures Columns() == old(Columns())
      ensures subject.Columns() == old(subject.Columns()) && subject.results == old(subject.results)
    {
      AddIfAbsentMembers(subjects, subject);
      if NoDuplicates(subjects) { AddIfAbsentNoDuplicates(subjects, subject); }
      if subject !in subjects {
        subjects := subjects + [subject];
        subject.AddExamSession(this);
      }
    }

    /**
     * Removes `subject` and, only if it was there, this session from the subject's
     * `examSessions`; removing an absent subject changes nothing.  Without duplicates
     * on either side, a two-sided link is gone from both sides afterwards.
     */
    method RemoveSubject(subject: Subject)
      modifies this, subject
      ensures subjects == RemoveElement(old(subjects), subject).rest
      ensures subject.examSessions ==
        if old(subject in subjects) then RemoveElement(old(subject.examSessions), this).rest
        else old(subject.examSessions)
      ensures old(LinkedWith(subject)) && NoDuplicates(old(subjects)) && NoDuplicates(old(subject.examSessions))
        ==> subject !in subjects && this !in subject.examSessions
      ensures forall s :: s != subject ==> (s in subjects <==> s in old(subjects))
      ensures Columns() == old(Columns())
      ensures subject.Columns() == old(subject.Columns()) && subject.results == old(subject.results)
    {
      if NoDuplicates(subjects) { RemoveElementNoDuplicates(subjects, subject); }
      RemoveElementKeepsOthers(subjects, subject);
      var removal := RemoveElement(subjects, subject);
      subjects := removal.rest;
      if removal.removed {
        subject.RemoveExamSession(this);
      }
    }
  }
}
