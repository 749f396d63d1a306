/** Lines of a text: what udo_file_ops_get_line and udo_file_ops_get_line_count look for. */
module Lines {

  function NewlineCount(s: seq<char>): nat {
    if s == [] then 0
    else NewlineCount(s[..|s| - 1]) + (if s[|s| - 1] == '\n' then 1 else 0)
  }

  /** Line `p` starts at index `r`: `p - 1` newlines come before, the last one immediately. */
  ghost predicate IsLineStart(s: seq<char>, p: nat, r: nat) {
    && r <= |s| && 1 <= p && NewlineCount(s[..r]) == p - 1
    && (r > 0 ==> s[r - 1] == '\n')
  }

  lemma Extend(s: seq<char>, i: nat)
    requires i < |s|
    ensures NewlineCount(s[..i + 1]) == NewlineCount(s[..i]) + (if s[i] == '\n' then 1 else 0)
  {
    assert s[..i + 1][..i] == s[..i];
  }

  lemma {:induction false} CountMono(s: seq<char>, i: nat, j: nat)
    requires i <= j <= |s|
    ensures NewlineCount(s[..i]) <= NewlineCount(s[..j])
  {
    if i < j {
      CountMono(s, i, j - 1);
      Extend(s, j - 1);
    }
  }

  lemma CountAtMostAll(s: seq<char>, i: nat)
    requires i <= |s|
    ensures NewlineCount(s[..i]) <= NewlineCount(s)
  {
    CountMono(s, i, |s|);
    assert s[..|s|] == s;
  }

  /** A later line starts later. */
  lemma StartsIncrease(s: seq<char>, p: nat, r: nat, p': nat, r': nat)
    requires IsLineStart(s, p, r) && IsLineStart(s, p', r') && p < p'
    ensures r < r'
  {
    if r' <= r { CountMono(s, r', r); }
  }

  /** A line has one start. */
  lemma StartIsUnique(s: seq<char>, p: nat, r: nat, r': nat)
    requires IsLineStart(s, p, r) && IsLineStart(s, p, r')
    ensures r == r'
  {
    if r < r' { OneBefore(s, p, r, r'); }
    if r' < r { OneBefore(s, p, r', r); }
  }

  lemma OneBefore(s: seq<char>, p: nat, r: nat, r': nat)
    requires IsLineStart(s, p, r) && IsLineStart(s, p, r')
    ensures !(r < r')
  {
    if r < r' {
      Extend(s, r' - 1);
      CountMono(s, r, r' - 1);
    }
  }

  /** The start of line `p`. */
  function LineStart(s: seq<char>, p: nat): (r: nat)
    requires 1 <= p <= NewlineCount(s) + 1
    ensures IsLineStart(s, p, r)
  {
    if p == 1 then 0
    else
      var init := s[..|s| - 1];
      if p <= NewlineCount(init) + 1 then
        var r := LineStart(init, p);
        assert s[..r] == init[..r];
        r
      else
        assert s[..|s|] == s;
        |s|
  }

  /** Line `p` exists if and only if there are `p - 1` newlines. */
  lemma LineExists(s: seq<char>, p: nat)
    requires 1 <= p
    ensures (exists r: nat :: IsLineStart(s, p, r)) <==> p - 1 <= NewlineCount(s)
  {
    if p - 1 <= NewlineCount(s) {
      assert IsLineStart(s, p, LineStart(s, p));
    } else {
      forall r: nat | IsLineStart(s, p, r)
        ensures false
      {
        CountAtMostAll(s, r);
      }
    }
  }

  /** Line `p` with its newline. */
  function Line(s: seq<char>, p: nat): seq<char>
    requires 1 <= p <= NewlineCount(s)
  {
    StartsIncrease(s, p, LineStart(s, p), p + 1, LineStart(s, p + 1));
    s[LineStart(s, p)..LineStart(s, p + 1)]
  }

  /** The first `n` lines joined. */
  function Joined(s: seq<char>, n: nat): seq<char>
    requires n <= NewlineCount(s)
  {
    if n == 0 then [] else Joined(s, n - 1) + Line(s, n)
  }

  /** The lines rebuild the text up to its last newline. */
  lemma {:induction false} LinesRebuildText(s: seq<char>, n: nat)
    requires n <= NewlineCount(s)
    ensures Joined(s, n) == s[..LineStart(s, n + 1)]
  {
    if n > 0 {
      LinesRebuildText(s, n - 1);
      StartsIncrease(s, n, LineStart(s, n), n + 1, LineStart(s, n + 1));
    }
  }

  /** A line ends with its newline and has no other. */
  lemma LineHasOneNewline(s: seq<char>, p: nat, a: nat, b: nat, k: nat)
    requires IsLineStart(s, p, a) && IsLineStart(s, p + 1, b) && a <= k < b
    ensures s[k] == '\n' <==> k == b - 1
  {
    if s[k] == '\n' && k + 1 < b {
      Extend(s, k);
      CountMono(s, a, k);
      CountMono(s, k + 1, b - 1);
      Extend(s, b - 1);
    }
  }
}
