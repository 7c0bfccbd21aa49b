/** The answer validators `is_valid_link` and `is_valid_email`. */
module Validators {
  import opened Text

  /** `is_valid_link(s)`: `s` starts with `http://` or `https://`. */
  function IsValidLink(s: string): (r: bool)
    ensures r <==> (|s| >= 7 && s[..7] == "http://") || (|s| >= 8 && s[..8] == "https://")
  {
    StartsWith(s, "http://") || StartsWith(s, "https://")
  }

  /** The index of the first `c` in `s`, or `|s|` when there is none. */
  function IndexOf(s: string, c: char): (i: nat)
    ensures i <= |s| && c !in s[..i]
    ensures i < |s| ==> s[i] == c
  {
    if s == [] || s[0] == c then 0 else 1 + IndexOf(s[1..], c)
  }

  /** The part of `s` on which `re.match(r"[^@]+@[^@]+\.[^@]+", s)` succeeds,
      split at the indices `i` (the `@`), `j` (the `.`) and `k` (the end of
      the match): three non-empty runs without `@`. */
  ghost predicate EmailMatch(s: string, i: int, j: int, k: int) {
    && 0 < i && i + 1 < j && j + 1 < k <= |s|
    && '@' !in s[..i] && s[i] == '@'
    && '@' !in s[i + 1..j] && s[j] == '.'
    && '@' !in s[j + 1..k]
  }

  /** `is_valid_email(s)`: a non-empty run before the first `@`, and after it,
      before any further `@`, a `.` with at least one character on each side.
      Nothing is said about what follows, since `re.match` anchors only at the
      start. */
  function IsValidEmail(s: string): (r: bool)
    ensures r ==> '@' in s && s[0] != '@' && |s| >= 5
  {
    var i := IndexOf(s, '@');
    if 0 < i < |s| then
      var rest := s[i + 1..];
      var domain := rest[..IndexOf(rest, '@')];
      exists p :: 1 <= p < |domain| - 1 && domain[p] == '.'
    else false
  }

  /** `IsValidEmail` accepts exactly the strings the regular expression matches
      at their start. */
  lemma EmailIsRegexMatch(s: string)
    ensures IsValidEmail(s) <==> exists i, j, k :: EmailMatch(s, i, j, k)
  {
    if IsValidEmail(s) {
      EmailHasMatch(s);
    }
    if exists i, j, k :: EmailMatch(s, i, j, k) {
      var i, j, k :| EmailMatch(s, i, j, k);
      MatchIsEmail(s, i, j, k);
    }
  }

  lemma EmailHasMatch(s: string)
    requires IsValidEmail(s)
    ensures exists i, j, k :: EmailMatch(s, i, j, k)
  {
    var i := IndexOf(s, '@');
    var rest := s[i + 1..];
    var q := IndexOf(rest, '@');
    var domain := rest[..q];
    var p :| 1 <= p < |domain| - 1 && domain[p] == '.';
    assert s[i + 1..i + 1 + p] == domain[..p];
    assert s[i + 2 + p..i + 3 + p] == domain[p + 1..p + 2];
    assert EmailMatch(s, i, i + 1 + p, i + 3 + p);
  }

  lemma MatchIsEmail(s: string, i': int, j: int, k: int)
    requires EmailMatch(s, i', j, k)
    ensures IsValidEmail(s)
  {
    var i := IndexOf(s, '@');
    assert i' == i by {
      assert forall x :: 0 <= x < i' ==> s[x] != '@' by {
        forall x | 0 <= x < i' ensures s[x] != '@' { assert s[..i'][x] == s[x]; }
      }
      assert forall x :: 0 <= x < i ==> s[x] != '@' by {
        forall x | 0 <= x < i ensures s[x] != '@' { assert s[..i][x] == s[x]; }
      }
    }
    var rest := s[i + 1..];
    var q := IndexOf(rest, '@');
    assert q >= k - i - 1 by {
      forall x | 0 <= x < k - i - 1 ensures rest[x] != '@' {
        if x < j - i - 1 {
          assert s[i + 1..j][x] == rest[x];
        } else if x > j - i - 1 {
          assert s[j + 1..k][x - (j - i)] == rest[x];
        }
      }
    }
    var domain := rest[..q];
    var p := j - i - 1;
    assert 1 <= p < |domain| - 1 && domain[p] == '.';
  }

  lemma EmailAccepted()
    ensures IsValidEmail("a@b.com")
  {
    assert "a@b.com"[2..][..IndexOf("a@b.com"[2..], '@')][1] == '.';
  }

  lemma EmailWithoutDot()
    ensures !IsValidEmail("a@b")
  {
  }

  lemma EmailWithoutUser()
    ensures !IsValidEmail("@b.com")
  {
  }

  lemma EmailDotFirst()
    ensures !IsValidEmail("a@.com")
  {
  }

  /** The pattern is anchored only at the start, so text after a second "@" is accepted. */
  lemma EmailTrailingAt()
    ensures IsValidEmail("a@b.c@")
  {
    assert "a@b.c@"[2..][..IndexOf("a@b.c@"[2..], '@')][1] == '.';
  }

  lemma LinkExamples()
    ensures IsValidLink("https://apps.apple.com/app")
    ensures !IsValidLink("www.example.com")
    ensures !IsValidLink("https:/x")
  {
    assert "https://apps.apple.com/app"[..8] == "https://";
    assert "www.example.com"[..7][0] != "http://"[0];
    assert "www.example.com"[..8][0] != "https://"[0];
    assert "https:/x"[..7][4] != "http://"[4];
    assert "https:/x"[..8][7] != "https://"[7];
  }
}
