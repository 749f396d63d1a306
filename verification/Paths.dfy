/** Paths in a C buffer: splitting at the last slash, and the directories on the way. */
module Paths {

  const NUL: char := '\0'

  /** The C string that starts at index `i` of a buffer. */
  function CStr(s: seq<char>, i: nat): string
    decreases |s| - i
  {
    if i >= |s| || s[i] == NUL then [] else [s[i]] + CStr(s, i + 1)
  }

  lemma {:induction false} CStrUpTo(s: seq<char>, i: nat, j: nat)
    requires i <= j < |s| && s[j] == NUL && (forall k :: i <= k < j ==> s[k] != NUL)
    ensures CStr(s, i) == s[i..j]
    decreases j - i
  {
    if i < j { CStrUpTo(s, i + 1, j); }
  }

  /** A path proper: a string that fits a buffer of `size` bytes with its terminator. */
  ghost predicate PathFits(path: string, size: nat) {
    |path| < size && forall i :: 0 <= i < |path| ==> path[i] != NUL
  }

  /** The buffer holds the path as a C string. */
  ghost predicate HoldsPath(buf: seq<char>, path: string) {
    PathFits(path, |buf|) && buf[..|path|] == path && buf[|path|] == NUL
  }

  /** Where p_set_fname_off cuts: at the last slash of index above 0, else at 0. */
  function Cut(path: string): (c: nat)
    ensures c == 0 || (c < |path| && path[c] == '/')
    ensures forall j :: c < j < |path| ==> path[j] != '/'
  {
    if |path| <= 1 then 0
    else if path[|path| - 1] == '/' then |path| - 1
    else
      var c := Cut(path[..|path| - 1]);
      assert c != 0 ==> path[..|path| - 1][c] == path[c];
      c
  }

  /** The buffer holds the path's two parts as C strings, a NUL standing at the cut. */
  ghost predicate HoldsParts(buf: seq<char>, path: string) {
    && PathFits(path, |buf|) && Cut(path) <= |path|
    && buf[Cut(path)] == NUL && buf[|path|] == NUL
    && forall i :: 0 <= i < |path| && i != Cut(path) ==> buf[i] == path[i]
  }

  lemma HoldsAt(buf: seq<char>, path: string, i: nat)
    requires HoldsPath(buf, path) && i < |path|
    ensures buf[i] == path[i] != NUL
  {
    assert buf[..|path|][i] == buf[i];
  }

  /** Writing a NUL at the cut parts the path; writing the slash back joins it. */
  lemma PartAndJoin(buf: seq<char>, path: string)
    ensures HoldsPath(buf, path) ==> Cut(path) < |buf| && HoldsParts(buf[Cut(path) := NUL], path)
    ensures HoldsParts(buf, path) && Cut(path) > 0 ==> HoldsPath(buf[Cut(path) := '/'], path)
  {
    if HoldsPath(buf, path) {
      forall i | 0 <= i < |path| ensures buf[i] == path[i] { HoldsAt(buf, path, i); }
    }
    if HoldsParts(buf, path) && Cut(path) > 0 {
      assert buf[Cut(path) := '/'][..|path|] == path;
    }
  }

  /** A whole path reads back as one string, from any index. */
  lemma WholeString(buf: seq<char>, path: string, i: nat)
    requires HoldsPath(buf, path) && i <= |path|
    ensures CStr(buf, i) == path[i..]
  {
    forall j | 0 <= j < |path| ensures buf[j] != NUL { HoldsAt(buf, path, j); }
    CStrUpTo(buf, i, |path|);
    assert buf[..|path|][i..] == buf[i..|path|];
  }

  /** The two strings: what is before the cut and what is behind it. */
  lemma PartStrings(buf: seq<char>, path: string)
    requires HoldsParts(buf, path)
    ensures CStr(buf, 0) == path[..Cut(path)]
    ensures path != "" ==> CStr(buf, Cut(path) + 1) == path[Cut(path) + 1..]
  {
    var c := Cut(path);
    CStrUpTo(buf, 0, c);
    assert buf[..c] == path[..c];
    if path != "" {
      CStrUpTo(buf, c + 1, |path|);
      assert buf[c + 1..|path|] == path[c + 1..];
    }
  }

  /** dirname, a slash and filename make the path again if and only if it has a slash.
      (Without one the cut overwrites the first character of the name.) */
  lemma SplitRoundTrip(buf: seq<char>, path: string)
    requires HoldsParts(buf, path)
    ensures CStr(buf, 0) + "/" + CStr(buf, Cut(path) + 1) == path <==> '/' in path
  {
    PartStrings(buf, path);
    var c := Cut(path);
    if path == "" {
      assert |CStr(buf, 0) + "/" + CStr(buf, c + 1)| > 0;
    } else if path[c] == '/' {
      assert path == path[..c] + "/" + path[c + 1..];
    } else {
      assert c == 0;
      assert (CStr(buf, 0) + "/" + CStr(buf, c + 1))[0] == '/';
      assert forall j :: 0 <= j < |path| ==> path[j] != '/';
    }
  }

  /** The filename has no slash. */
  lemma FilenameHasNoSlash(buf: seq<char>, path: string)
    requires HoldsParts(buf, path) && path != ""
    ensures '/' !in CStr(buf, Cut(path) + 1)
  {
    PartStrings(buf, path);
  }

  /** The prefixes of the path that end before a slash among its first `n` characters. */
  function Prefixes(path: string, n: nat): seq<string>
    requires n <= |path|
  {
    if n == 0 then []
    else Prefixes(path, n - 1) + (if path[n - 1] == '/' then [path[..n - 1]] else [])
  }

  /** Exactly the prefixes before a slash are visited. */
  lemma {:induction false} PrefixesAreDirectories(path: string, n: nat, dir: string)
    requires n <= |path|
    ensures dir in Prefixes(path, n) <==> exists i :: 0 <= i < n && path[i] == '/' && dir == path[..i]
  {
    if n > 0 {
      PrefixesAreDirectories(path, n - 1, dir);
    }
  }

  /** No prefix is visited twice: each is longer than those before it. */
  lemma {:induction false} PrefixesGrow(path: string, n: nat, j: nat, k: nat)
    requires n <= |path| && j < k < |Prefixes(path, n)|
    ensures |Prefixes(path, n)[j]| < |Prefixes(path, n)[k]|
  {
    var before := Prefixes(path, n - 1);
    if k < |before| {
      PrefixesGrow(path, n - 1, j, k);
    } else {
      assert before[j] in before;
      PrefixesAreDirectories(path, n - 1, before[j]);
    }
  }

  /** Parents come first: when a prefix is visited, every shorter prefix before a slash has
      been visited earlier. */
  lemma {:induction false} ParentsFirst(path: string, n: nat, k: nat, j: nat)
    requires n <= |path| && k < |Prefixes(path, n)| && j < |Prefixes(path, n)[k]|
    requires Prefixes(path, n)[k][j] == '/'
    ensures j < |path| && path[..j] in Prefixes(path, n)[..k]
  {
    var before := Prefixes(path, n - 1);
    if k < |before| {
      ParentsFirst(path, n - 1, k, j);
      assert Prefixes(path, n)[..k] == before[..k];
    } else {
      assert Prefixes(path, n)[k] == path[..n - 1];
      PrefixesAreDirectories(path, n - 1, path[..j]);
      assert Prefixes(path, n)[..k] == before;
    }
  }
}
