/**
  The grade calculator of server.js: a mark is mapped to a letter by
  thresholds tried from the highest down, the first one reached winning.
 */
module Grading {

  /** The six letters the calculator can return. */
  const Letters: set<string> := {"A+", "A", "B+", "B", "C", "F"}

  /** calculateGrade: every integer mark, negative ones included, gets a letter. */
  function CalculateGrade(marks: int): (g: string)
    ensures g in Letters
  {
    if marks >= 90 then "A+"
    else if marks >= 80 then "A"
    else if marks >= 70 then "B+"
    else if marks >= 60 then "B"
    else if marks >= 50 then "C"
    else "F"
  }

  /** Position of a letter in the order F < C < B < B+ < A < A+. */
  function Rank(g: string): (k: nat)
    requires g in Letters
    ensures k < 6
  {
    if g == "A+" then 5
    else if g == "A" then 4
    else if g == "B+" then 3
    else if g == "B" then 2
    else if g == "C" then 1
    else 0
  }

  /** The least mark that earns a letter other than F (the grading table). */
  function Threshold(g: string): int
    requires g in Letters && g != "F"
  {
    if g == "A+" then 90
    else if g == "A" then 80
    else if g == "B+" then 70
    else if g == "B" then 60
    else 50
  }

  /** A mark reaches F unconditionally and any other letter at its threshold. */
  predicate Reaches(marks: int, g: string)
    requires g in Letters
  {
    g == "F" || marks >= Threshold(g)
  }

  /**
    "First match wins": the letter returned is the one of highest rank whose
    threshold the mark reaches, and no other letter has that property.
   */
  lemma GradeIsHighestReached(marks: int, g: string)
    requires g in Letters
    ensures CalculateGrade(marks) == g <==>
              Reaches(marks, g) && forall h :: h in Letters && Reaches(marks, h) ==> Rank(h) <= Rank(g)
  {
  }

  /** A larger mark never earns a lower letter. */
  lemma GradeMonotone(lo: int, hi: int)
    requires lo <= hi
    ensures Rank(CalculateGrade(lo)) <= Rank(CalculateGrade(hi))
  {
  }

  /** The letter changes exactly at each threshold. */
  lemma GradeBoundaries()
    ensures CalculateGrade(90) == "A+" && CalculateGrade(89) == "A"
    ensures CalculateGrade(80) == "A" && CalculateGrade(79) == "B+"
    ensures CalculateGrade(70) == "B+" && CalculateGrade(69) == "B"
    ensures CalculateGrade(60) == "B" && CalculateGrade(59) == "C"
    ensures CalculateGrade(50) == "C" && CalculateGrade(49) == "F"
    ensures forall m :: m < 0 ==> CalculateGrade(m) == "F"
  {
  }

  /** The examples the test suite checks. */
  lemma GradeExamples()
    ensures CalculateGrade(95) == "A+" && CalculateGrade(85) == "A"
    ensures CalculateGrade(75) == "B+" && CalculateGrade(65) == "B"
    ensures CalculateGrade(55) == "C" && CalculateGrade(45) == "F"
  {
  }
}
