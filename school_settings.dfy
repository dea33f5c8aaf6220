/** The school-settings page, src/pages/SchoolSettingsPage.tsx: editing the
    list of division letters of a grade, and saving the edited school
    fields. The page hands the new division list to updateDivisions(grade,
    list); here an edit returns that list, and ApplyEdit stores it in the
    grade's entry of divisionsPerGrade. */
module SchoolSettings {
  import opened SchoolTypes

  /** `school.divisionsPerGrade[grade] || ['A']`: a grade with no entry reads
      as the single division A. A recorded empty list is an array, which is
      truthy, so it is kept. */
  function CurrentDivisions(divisions: map<string, seq<string>>, grade: string): seq<string> {
    if grade in divisions then divisions[grade] else ["A"]
  }

  /** What an edit hands on: a new list for updateDivisions, or the error
      toast the guard shows instead. */
  datatype DivisionEdit = Updated(divisions: seq<string>) | Refused(message: string)

  const MaxDivisionsMessage := "Max 10 divisions per grade"
  const MinDivisionsMessage := "Must have at least 1 division"

  /** The first ten division names, A to J, as written by hand. */
  const DivisionLetters: string := "ABCDEFGHIJ"

  /** The divisions a grade has when it was built up from A one letter at a
      time: ["A", "B", ...] with n names. */
  function CanonicalDivisions(n: nat): (r: seq<string>)
    requires n <= |DivisionLetters|
    ensures |r| == n
  {
    seq(n, i requires 0 <= i < n => [DivisionLetters[i]])
  }

  /** addDivision: appends the one-letter name String.fromCharCode(65 + n),
      n being the current count, unless there are already 10 or more. */
  function AddDivision(divisions: map<string, seq<string>>, grade: string): (r: DivisionEdit)
    ensures var current := CurrentDivisions(divisions, grade);
      && (|current| >= 10 <==> r == Refused(MaxDivisionsMessage))
      && (r.Updated? ==>
            && |r.divisions| == |current| + 1 <= 10
            && r.divisions[..|current|] == current
            && r.divisions[|current|] == [DivisionLetters[|current|]])
  {
    var current := CurrentDivisions(divisions, grade);
    if |current| >= 10 then Refused(MaxDivisionsMessage)
    else
      var next := (65 + |current|) as char;
      assert next == DivisionLetters[|current|];
      Updated(current + [[next]])
  }

  /** removeDivision: drops the last name, unless there is one or none. */
  function RemoveDivision(divisions: map<string, seq<string>>, grade: string): (r: DivisionEdit)
    ensures var current := CurrentDivisions(divisions, grade);
      && (|current| <= 1 <==> r == Refused(MinDivisionsMessage))
      && (r.Updated? ==> 1 <= |r.divisions| == |current| - 1 && current == r.divisions + [current[|current| - 1]])
  {
    var current := CurrentDivisions(divisions, grade);
    if |current| <= 1 then Refused(MinDivisionsMessage)
    else Updated(current[..|current| - 1])
  }

  /** updateDivisions(grade, list) when the edit went through. */
  function ApplyEdit(divisions: map<string, seq<string>>, grade: string, edit: DivisionEdit): (r: map<string, seq<string>>)
    ensures edit.Updated? ==> CurrentDivisions(r, grade) == edit.divisions
    ensures edit.Refused? ==> r == divisions
    ensures forall g :: g != grade ==> CurrentDivisions(r, g) == CurrentDivisions(divisions, g)
  {
    if edit.Updated? then divisions[grade := edit.divisions] else divisions
  }

  /** A grade built up from A one letter at a time gets the next letter of
      the alphabet: after A..X comes the letter after X. */
  lemma AddDivisionNextLetter(divisions: map<string, seq<string>>, grade: string, n: nat)
    requires n < 10
    requires CurrentDivisions(divisions, grade) == CanonicalDivisions(n)
    ensures AddDivision(divisions, grade) == Updated(CanonicalDivisions(n + 1))
  {
    var r := AddDivision(divisions, grade);
    assert r.divisions == r.divisions[..n] + [r.divisions[n]];
    assert CanonicalDivisions(n + 1) == CanonicalDivisions(n) + [[DivisionLetters[n]]];
  }

  /** A grade that was never recorded starts from the single division A:
      adding gives A, B and removing is refused. */
  lemma UnrecordedGrade(divisions: map<string, seq<string>>, grade: string)
    requires grade !in divisions
    ensures AddDivision(divisions, grade) == Updated(["A", "B"])
    ensures RemoveDivision(divisions, grade) == Refused(MinDivisionsMessage)
  {
    var r := AddDivision(divisions, grade);
    assert r.divisions == r.divisions[..1] + [r.divisions[1]];
  }

  /** Removing after a successful add gives back the list the grade had. A
      grade recorded with no divisions at all is the exception: adding gives
      it A, and removing the only division is refused. */
  lemma AddThenRemove(divisions: map<string, seq<string>>, grade: string)
    requires CurrentDivisions(divisions, grade) != []
    requires AddDivision(divisions, grade).Updated?
    ensures var added := ApplyEdit(divisions, grade, AddDivision(divisions, grade));
      RemoveDivision(added, grade) == Updated(CurrentDivisions(divisions, grade))
  {
    var current := CurrentDivisions(divisions, grade);
    var l := AddDivision(divisions, grade).divisions;
    assert l[..|l| - 1] == current;
  }

  /** Adding after a successful remove restores a grade built up from A. */
  lemma RemoveThenAdd(divisions: map<string, seq<string>>, grade: string, n: nat)
    requires 2 <= n <= 10
    requires CurrentDivisions(divisions, grade) == CanonicalDivisions(n)
    ensures var removed := ApplyEdit(divisions, grade, RemoveDivision(divisions, grade));
      AddDivision(removed, grade) == Updated(CanonicalDivisions(n))
  {
    var removed := ApplyEdit(divisions, grade, RemoveDivision(divisions, grade));
    assert CurrentDivisions(removed, grade) == CanonicalDivisions(n - 1);
    AddDivisionNextLetter(removed, grade, n - 1);
  }

  /** The two buttons of a grade row. */
  datatype DivisionButton = AddButton | RemoveButton

  function Press(divisions: map<string, seq<string>>, grade: string, b: DivisionButton): map<string, seq<string>> {
    match b
    case AddButton => ApplyEdit(divisions, grade, AddDivision(divisions, grade))
    case RemoveButton => ApplyEdit(divisions, grade, RemoveDivision(divisions, grade))
  }

  /** The presses one after the other. */
  function PressAll(divisions: map<string, seq<string>>, grade: string, presses: seq<DivisionButton>): map<string, seq<string>>
    decreases |presses|
  {
    if presses == [] then divisions
    else PressAll(Press(divisions, grade, presses[0]), grade, presses[1..])
  }

  /** Whatever the buttons pressed, a grade that starts with 1 to 10
      divisions keeps 1 to 10: adding stops at 10 and removing at 1. */
  lemma {:induction false} PressesKeepCountInRange(divisions: map<string, seq<string>>, grade: string, presses: seq<DivisionButton>)
    requires 1 <= |CurrentDivisions(divisions, grade)| <= 10
    ensures var after := PressAll(divisions, grade, presses);
      1 <= |CurrentDivisions(after, grade)| <= 10
    decreases |presses|
  {
    if presses != [] {
      var next := Press(divisions, grade, presses[0]);
      assert 1 <= |CurrentDivisions(next, grade)| <= 10 by {
        match presses[0]
        case AddButton =>
        case RemoveButton =>
      }
      PressesKeepCountInRange(next, grade, presses[1..]);
    }
  }

  /** handleSave: the three edited fields replace the school's; every other
      field (id, divisions, custom subjects) is kept. */
  function SaveSchoolInfo(s: School, name: string, board: BoardType, year: string): (r: School)
    ensures r.schoolName == name && r.boardType == board && r.academicYear == year
    ensures r.schoolId == s.schoolId
    ensures r.divisionsPerGrade == s.divisionsPerGrade
    ensures r.customSubjects == s.customSubjects
  {
    s.(schoolName := name, boardType := board, academicYear := year)
  }

  /** Saving the values the form was opened with changes nothing, and a
      second save of the same values changes nothing more. */
  lemma SaveSchoolInfoUnchanged(s: School, name: string, board: BoardType, year: string)
    ensures SaveSchoolInfo(s, s.schoolName, s.boardType, s.academicYear) == s
    ensures var once := SaveSchoolInfo(s, name, board, year);
      SaveSchoolInfo(once, name, board, year) == once
  {
  }
}
