/** `Array.prototype.find` / `findIndex`: the first element that satisfies a test. */
module Search {

  /** The index of the first element of `s` that satisfies `matches`, or -1
      when there is none. */
  function FindIndex<T>(s: seq<T>, matches: T -> bool): (i: int)
    ensures -1 <= i < |s|
    ensures i == -1 <==> forall j :: 0 <= j < |s| ==> !matches(s[j])
    ensures 0 <= i ==> matches(s[i]) && forall j :: 0 <= j < i ==> !matches(s[j])
  {
    if |s| == 0 then -1
    else if matches(s[0]) then 0
    else
      var k := FindIndex(s[1..], matches);
      if k == -1 then -1 else k + 1
  }

  /** An element appended after elements that all fail the test is the
      first match exactly when it passes the test. */
  lemma FindIndexAppend<T>(s: seq<T>, x: T, matches: T -> bool)
    requires forall j :: 0 <= j < |s| ==> !matches(s[j])
    ensures FindIndex(s + [x], matches) == if matches(x) then |s| else -1
  {
    var t := s + [x];
    assert forall j :: 0 <= j < |s| ==> t[j] == s[j];
    assert t[|s|] == x;
  }
}
