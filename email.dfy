/** The email test both sign-in and registration forms use, the regular
    expression `/\S+@\S+\.\S+/` without anchors: a string passes when it
    contains, anywhere, a run free of whitespace made of something, `@`,
    something, `.`, something. */
module Email {
  import opened Text

  /** Declarative reading of the pattern: an `@` at `i` and a `.` at `j`,
      with at least one character before the `@`, between them and after
      the `.`, and no whitespace from the character before `i` to the one
      after `j`. */
  ghost predicate MatchAt(s: string, i: int, j: int) {
    && 1 <= i && i + 1 < j && j + 1 < |s|
    && s[i] == '@' && s[j] == '.'
    && forall m :: i - 1 <= m <= j + 1 ==> !IsSpace(s[m])
  }

  ghost predicate Matches(s: string) {
    exists i, j :: MatchAt(s, i, j)
  }

  /** A `.` at `j`, followed by a character, with no whitespace from the
      start up to that character; unless `started`, not at the start. */
  ghost predicate DotAt(t: string, started: bool, j: int) {
    && (if started then 0 else 1) <= j && j + 1 < |t| && t[j] == '.'
    && forall m :: 0 <= m <= j + 1 ==> !IsSpace(t[m])
  }

  /** Scans the part after an `@` for `\S+\.\S+` at its start; `started`
      says whether one character of the first `\S+` has been consumed. */
  function DomainFrom(t: string, started: bool): bool {
    if |t| < 2 || IsSpace(t[0]) then false
    else if started && t[0] == '.' && !IsSpace(t[1]) then true
    else DomainFrom(t[1..], true)
  }

  /** `/\S+@\S+\.\S+/.test(s)`, scanning for an `@` from the left. */
  function Test(s: string): bool {
    |s| >= 2 && ((s[1] == '@' && !IsSpace(s[0]) && DomainFrom(s[2..], false)) || Test(s[1..]))
  }

  lemma {:induction false} DomainFromSpec(t: string, started: bool)
    ensures DomainFrom(t, started) <==> exists j :: DotAt(t, started, j)
  {
    if |t| < 2 {
      assert forall j :: !DotAt(t, started, j);
    } else if !IsSpace(t[0]) {
      if started && t[0] == '.' && !IsSpace(t[1]) {
        assert DotAt(t, started, 0);
      } else {
        DomainFromSpec(t[1..], true);
        if DomainFrom(t, started) {
          var j :| DotAt(t[1..], true, j);
          assert DotAt(t, started, j + 1) by {
            forall m | 0 <= m <= j + 2 ensures !IsSpace(t[m]) {
              if m > 0 { assert t[m] == t[1..][m - 1]; }
            }
          }
        } else if exists j :: DotAt(t, started, j) {
          var j :| DotAt(t, started, j);
          assert j >= 1;
          assert DotAt(t[1..], true, j - 1) by {
            forall m | 0 <= m <= j ensures !IsSpace(t[1..][m]) {
              assert t[1..][m] == t[m + 1];
            }
          }
          assert false;
        }
      }
    }
  }

  /** The scanner decides exactly the declarative reading of the pattern. */
  lemma {:induction false} TestSpec(s: string)
    ensures Test(s) <==> Matches(s)
    decreases |s|
  {
    if |s| >= 2 {
      TestSpec(s[1..]);
      var d := s[2..];
      DomainFromSpec(d, false);
      if Test(s) {
        if s[1] == '@' && !IsSpace(s[0]) && DomainFrom(d, false) {
          var j :| DotAt(d, false, j);
          assert MatchAt(s, 1, j + 2) by {
            forall m | 0 <= m <= j + 3 ensures !IsSpace(s[m]) {
              if m >= 2 { assert s[m] == d[m - 2]; }
            }
          }
        } else {
          var i, j :| MatchAt(s[1..], i, j);
          ShiftMatch(s[1..], [s[0]], i, j);
          assert [s[0]] + s[1..] == s;
        }
      } else if Matches(s) {
        var i, j :| MatchAt(s, i, j);
        if i == 1 {
          assert DotAt(d, false, j - 2) by {
            forall m | 0 <= m <= j - 1 ensures !IsSpace(d[m]) {
              assert d[m] == s[m + 2];
            }
          }
          assert false;
        } else {
          assert MatchAt(s[1..], i - 1, j - 1) by {
            forall m | i - 2 <= m <= j ensures !IsSpace(s[1..][m]) {
              assert s[1..][m] == s[m + 1];
            }
          }
          assert false;
        }
      }
    } else {
      assert forall i, j :: !MatchAt(s, i, j);
    }
  }

  /** A match survives putting text in front. */
  lemma ShiftMatch(s: string, a: string, i: int, j: int)
    requires MatchAt(s, i, j)
    ensures MatchAt(a + s, i + |a|, j + |a|)
  {
    var t := a + s;
    forall m | i + |a| - 1 <= m <= j + |a| + 1 ensures !IsSpace(t[m]) {
      assert t[m] == s[m - |a|];
    }
  }

  /** The pattern has no anchors: text around a passing string never makes
      it fail. */
  lemma Unanchored(s: string, a: string, b: string)
    requires Test(s)
    ensures Test(a + s + b)
  {
    TestSpec(s);
    var i, j :| MatchAt(s, i, j);
    ShiftMatch(s, a, i, j);
    var t := a + s;
    assert MatchAt(t + b, i + |a|, j + |a|) by {
      forall m | i + |a| - 1 <= m <= j + |a| + 1 ensures !IsSpace((t + b)[m]) {
        assert (t + b)[m] == t[m];
      }
    }
    TestSpec(t + b);
  }

  /** Any string with a whitespace-free `x@y.z` inside passes, e.g. `"a b@c.d"`,
      whatever precedes or follows it. */
  lemma EmbeddedAddressPasses(a: string, x: char, y: char, z: char, b: string)
    requires !IsSpace(x) && !IsSpace(y) && !IsSpace(z)
    ensures Test(a + [x, '@', y, '.', z] + b)
  {
    var core := [x, '@', y, '.', z];
    assert MatchAt(core, 1, 3);
    TestSpec(core);
    Unanchored(core, a, b);
  }

  /** A string without `@` fails. */
  lemma NoAtFails(s: string)
    requires forall k :: 0 <= k < |s| ==> s[k] != '@'
    ensures !Test(s)
  {
    TestSpec(s);
  }
}
