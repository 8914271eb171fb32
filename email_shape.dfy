/** The shape test the login form applies to an email address: the unanchored
    regular expression `\S+@\S+\.\S+`, i.e. "some substring of the input is one
    or more non-blank characters, an '@', one or more non-blank characters, a
    '.', and one or more non-blank characters".

    The test is given twice: `MatchesShape` says directly that such a substring
    exists, and `HasEmailShape` decides it with one left-to-right pass of a small
    automaton, the way a regular-expression engine runs `test`.
    `ScanDecidesShape` proves that the two agree on every input. */
module EmailShape {

  /** JavaScript's `\s`: the WhiteSpace and LineTerminator code points of ECMAScript. */
  predicate IsWhitespace(c: char) {
    var n := c as int;
    n == 0x09 || n == 0x0A || n == 0x0B || n == 0x0C || n == 0x0D || n == 0x20 || n == 0xA0
    || n == 0x1680 || (0x2000 <= n <= 0x200A) || n == 0x2028 || n == 0x2029
    || n == 0x202F || n == 0x205F || n == 0x3000 || n == 0xFEFF
  }

  /** Every character of `s[lo..hi]` is matched by `\S`. */
  ghost predicate NonBlank(s: string, lo: int, hi: int)
    requires 0 <= lo <= hi <= |s|
  {
    forall k :: lo <= k < hi ==> !IsWhitespace(s[k])
  }

  /** The regular expression matches `s[i-1..j+2]` with its '@' at `i` and its '.' at `j`:
      at least one non-blank before the '@', at least one between the two, at least one after the '.'. */
  ghost predicate ShapeAt(s: string, i: int, j: int) {
    1 <= i && i + 2 <= j && j + 1 < |s| && s[i] == '@' && s[j] == '.' && NonBlank(s, i - 1, j + 2)
  }

  /** `/\S+@\S+\.\S+/.test(s)`: some substring of `s` matches. A longer match
      always contains one of the minimal form described by `ShapeAt`. */
  ghost predicate MatchesShape(s: string) {
    exists i, j :: ShapeAt(s, i, j)
  }

  /** The states of the scan. `Local`: inside a run of non-blanks, no usable '@' yet;
      `At`: the first usable '@' of the run was just read; `Domain`: at least one
      non-blank follows that '@'; `Dot`: a '.' at least two places after the '@' was
      just read; `Matched`: a match has been seen (the state is absorbing). */
  datatype ScanState = Blank | Local | At | Domain | Dot | Matched

  function Step(q: ScanState, c: char): ScanState {
    if q == Matched then Matched
    else if IsWhitespace(c) then Blank
    else match q
      case Blank => Local
      case Local => if c == '@' then At else Local
      case At => Domain
      case Domain => if c == '.' then Dot else Domain
      case Dot => Matched
  }

  /** The state reached after reading all of `s` from `Blank`. */
  function Scan(s: string): ScanState {
    if s == [] then Blank else Step(Scan(s[..|s| - 1]), s[|s| - 1])
  }

  /** The executable shape test used by the validator. */
  function HasEmailShape(s: string): (r: bool)
    ensures r <==> MatchesShape(s)
  {
    ScanDecidesShape(s);
    Scan(s) == Matched
  }

  // ---------------------------------------------------------------------------
  // What each state means about the prefix read so far

  /** An '@' at `i`, preceded by a non-blank, with only non-blanks from there to the end of `p`. */
  ghost predicate AtRun(p: string, i: int) {
    1 <= i < |p| && p[i] == '@' && NonBlank(p, i - 1, |p|)
  }

  ghost predicate LocalPending(p: string) {
    |p| >= 1 && !IsWhitespace(p[|p| - 1])
  }

  ghost predicate AtPending(p: string) {
    |p| >= 2 && AtRun(p, |p| - 1)
  }

  ghost predicate DomainPending(p: string) {
    exists i :: AtRun(p, i) && i + 2 <= |p|
  }

  ghost predicate DotPending(p: string) {
    |p| >= 1 && p[|p| - 1] == '.' && exists i :: AtRun(p, i) && i + 3 <= |p|
  }

  /** The most advanced state that the prefix `p` justifies. */
  ghost function Meaning(p: string): ScanState {
    if MatchesShape(p) then Matched
    else if DotPending(p) then Dot
    else if DomainPending(p) then Domain
    else if AtPending(p) then At
    else if LocalPending(p) then Local
    else Blank
  }

  lemma NonBlankExtend(p: string, c: char, lo: int, hi: int)
    requires 0 <= lo <= hi <= |p|
    ensures NonBlank(p + [c], lo, hi) <==> NonBlank(p, lo, hi)
  {
    assert forall k :: lo <= k < hi ==> (p + [c])[k] == p[k];
  }

  lemma NonBlankSnoc(s: string, lo: int, hi: int)
    requires 0 <= lo < hi <= |s|
    ensures NonBlank(s, lo, hi) <==> NonBlank(s, lo, hi - 1) && !IsWhitespace(s[hi - 1])
  {
  }

  /** An '@' run survives one more character exactly when that character is non-blank;
      a new one starts when the character is an '@' after a non-blank. */
  lemma AtRunExtend(p: string, c: char, i: int)
    ensures AtRun(p + [c], i) <==>
              (i < |p| && AtRun(p, i) && !IsWhitespace(c))
              || (i == |p| && c == '@' && LocalPending(p))
  {
    var s := p + [c];
    if 1 <= i < |p| {
      NonBlankExtend(p, c, i - 1, |p|);
      NonBlankSnoc(s, i - 1, |s|);
    } else if i == |p| && i >= 1 {
      NonBlankSnoc(s, i - 1, |s|);
      NonBlankSnoc(s, i - 1, |s| - 1);
    }
  }

  lemma MatchesExtend(p: string, c: char)
    ensures MatchesShape(p + [c]) <==> MatchesShape(p) || (DotPending(p) && !IsWhitespace(c))
  {
    var s := p + [c];
    if MatchesShape(s) {
      var i, j :| ShapeAt(s, i, j);
      if j + 2 <= |p| {
        NonBlankExtend(p, c, i - 1, j + 2);
        assert ShapeAt(p, i, j);
      } else {
        NonBlankSnoc(s, i - 1, |s|);
        NonBlankExtend(p, c, i - 1, |p|);
        assert AtRun(p, i) && i + 3 <= |p|;
        assert DotPending(p) && !IsWhitespace(c);
      }
    }
    if MatchesShape(p) {
      var i, j :| ShapeAt(p, i, j);
      NonBlankExtend(p, c, i - 1, j + 2);
      assert ShapeAt(s, i, j);
    }
    if DotPending(p) && !IsWhitespace(c) {
      var i :| AtRun(p, i) && i + 3 <= |p|;
      NonBlankExtend(p, c, i - 1, |p|);
      NonBlankSnoc(s, i - 1, |s|);
      assert ShapeAt(s, i, |p| - 1);
    }
  }

  lemma DotExtend(p: string, c: char)
    ensures DotPending(p + [c]) <==> c == '.' && DomainPending(p)
  {
    var s := p + [c];
    if DotPending(s) {
      var i :| AtRun(s, i) && i + 3 <= |s|;
      AtRunExtend(p, c, i);
      assert AtRun(p, i) && i + 2 <= |p|;
    }
    if c == '.' && DomainPending(p) {
      var i :| AtRun(p, i) && i + 2 <= |p|;
      AtRunExtend(p, c, i);
      assert AtRun(s, i) && i + 3 <= |s|;
    }
  }

  lemma DomainExtend(p: string, c: char)
    ensures DomainPending(p + [c]) <==> !IsWhitespace(c) && (DomainPending(p) || AtPending(p))
  {
    var s := p + [c];
    if DomainPending(s) {
      var i :| AtRun(s, i) && i + 2 <= |s|;
      AtRunExtend(p, c, i);
      if i + 2 <= |p| {
        assert AtRun(p, i) && i + 2 <= |p|;
      }
    }
    if !IsWhitespace(c) && DomainPending(p) {
      var i :| AtRun(p, i) && i + 2 <= |p|;
      AtRunExtend(p, c, i);
      assert AtRun(s, i) && i + 2 <= |s|;
    }
    if !IsWhitespace(c) && AtPending(p) {
      AtRunExtend(p, c, |p| - 1);
      assert AtRun(s, |p| - 1) && |p| - 1 + 2 <= |s|;
    }
  }

  lemma AtExtend(p: string, c: char)
    ensures AtPending(p + [c]) <==> c == '@' && LocalPending(p)
  {
    AtRunExtend(p, c, |p|);
  }

  /** Reading one character moves the meaning of the prefix exactly as `Step` moves the state. */
  lemma StepMeaning(p: string, c: char)
    ensures Meaning(p + [c]) == Step(Meaning(p), c)
  {
    MatchesExtend(p, c);
    DotExtend(p, c);
    DomainExtend(p, c);
    AtExtend(p, c);
    var s := p + [c];
    assert LocalPending(s) <==> !IsWhitespace(c);
  }

  lemma {:induction false} ScanMeaning(s: string)
    ensures Scan(s) == Meaning(s)
  {
    if s == [] {
      assert !AtPending(s) && !LocalPending(s);
      assert !DomainPending(s);
      assert !MatchesShape(s);
    } else {
      var p, c := s[..|s| - 1], s[|s| - 1];
      assert s == p + [c];
      ScanMeaning(p);
      StepMeaning(p, c);
    }
  }

  /** The automaton ends in `Matched` exactly when the regular expression matches. */
  lemma ScanDecidesShape(s: string)
    ensures Scan(s) == Matched <==> MatchesShape(s)
  {
    ScanMeaning(s);
  }
}
