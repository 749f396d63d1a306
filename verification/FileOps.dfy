/** The parts of struct udo_file_ops in src/file-ops.c that hold data: the mapped file with
    its line lookup, and the path buffer with its split into dirname and filename. */
module FileOps {
  import opened Lines
  import opened Options
  import opened Paths
  import opened Words

  /** What udo_file_ops_get_line finds: the start of line `p` if and only if there is such a
      line; beyond, the start of the last line, or index 1 when there is no newline at all. */
  ghost predicate LineFound(text: seq<char>, p: nat, r: nat)
    requires 1 <= p
  {
    var n := NewlineCount(text);
    && (IsLineStart(text, p, r) <==> p - 1 <= n)
    && (p - 1 > n ==> r == if n == 0 then 1 else LineStart(text, n + 1))
  }

  /** Where the loop of udo_file_ops_get_line can stop, and what its variables then say. */
  lemma Found(text: seq<char>, p: nat, offset: nat, line: nat, c: nat)
    requires offset <= |text| < SIZE_LIMIT && 1 <= p && c <= offset
    requires line == 0 ==> c == offset
    requires line > 0 ==> c > 0 && IsLineStart(text, line + 1, offset - c + 1)
    requires line == NewlineCount(text[..offset]) < p
    requires offset == |text| || (text[offset] == '\n' && line + 1 == p)
    ensures LineFound(text, p, Minus(offset, if p == 1 then c else Minus(c, 1)))
  {
    if offset < |text| {
      Extend(text, offset);
      CountAtMostAll(text, offset + 1);
    } else {
      assert text[..offset] == text;
    }
    if line == 0 {
      assert IsLineStart(text, 1, 0) by { assert text[..0] == []; }
    }
    var n, r := NewlineCount(text), Minus(offset, if p == 1 then c else Minus(c, 1));
    if p - 1 > n {
      if IsLineStart(text, p, r) { CountAtMostAll(text, r); }
      if n > 0 { StartIsUnique(text, n + 1, LineStart(text, n + 1), r); }
    }
  }

  class FileContext {
    /** The mapped file, NULL if there is none, and how much of it is data. */
    var data: array?<char>
    var dataSz: nat
    /** One buffer for the whole path or, with a NUL before the file name, for both parts. */
    var fullPath: array<char>
    var fnameOff: nat
    /** The path the context was made for. */
    ghost var path: string

    /** The data, as far as they go, are in the mapping. */
    ghost predicate Mapped()
      reads this
    {
      dataSz < SIZE_LIMIT && (data != null ==> dataSz <= data.Length)
    }

    ghost function Text(): seq<char>
      requires Mapped() && data != null
      reads this, data
    {
      data[..dataSz]
    }

    /** udo_file_ops_get_line: the index into the data it returns a pointer to. */
    method GetLine(pLine: nat) returns (r: Option<nat>)
      requires Mapped()
      ensures r.Some? <==> data != null && pLine != 0
      ensures r.Some? ==> LineFound(Text(), pLine, r.value)
    {
      if data == null || pLine == 0 {
        return None;
      }
      ghost var text := Text();
      var offset, c, line := 0, 0, 0;
      while offset < dataSz
        invariant offset <= dataSz && line == NewlineCount(text[..offset]) < pLine
        invariant c <= offset
        invariant line == 0 ==> c == offset
        invariant line > 0 ==> c > 0 && IsLineStart(text, line + 1, offset - c + 1)
      {
        Extend(text, offset);
        if data[offset] == '\n' {
          line := line + 1;
          if line == pLine {
            break;
          }
          c := 0;
        }
        offset, c := offset + 1, c + 1;
      }
      Found(text, pLine, offset, if line == pLine then line - 1 else line, c);
      c := if pLine == 1 then c else Minus(c, 1);
      r := Some(Minus(offset, c));
    }

    /** udo_file_ops_get_line_count; None stands for (size_t) -1. */
    method GetLineCount() returns (r: Option<nat>)
      requires Mapped()
      ensures r == if data == null then None else Some(NewlineCount(Text()))
    {
      if data == null {
        return None;
      }
      var offset, line := 0, 0;
      while offset < dataSz
        invariant offset <= dataSz && line == NewlineCount(Text()[..offset])
      {
        Extend(Text(), offset);
        if data[offset] == '\n' {
          line := line + 1;
        }
        offset := offset + 1;
      }
      assert Text()[..dataSz] == Text();
      r := Some(line);
    }

    /** The buffer holds the path in one piece, or parted at the cut. */
    ghost predicate Whole()
      reads this, fullPath
    {
      HoldsPath(fullPath[..], path) && fnameOff == Cut(path) + 1
    }

    ghost predicate Parted()
      reads this, fullPath
    {
      HoldsParts(fullPath[..], path) && fnameOff == Cut(path) + 1
    }

    /** p_set_fname_off on a path of `length` characters. */
    method SetFnameOff(length: nat)
      requires HoldsPath(fullPath[..], path) && length == |path|
      modifies this`fnameOff, fullPath
      ensures Parted() && fullPath[..] == old(fullPath[..])[Cut(path) := NUL]
    {
      ghost var whole := fullPath[..];
      PartAndJoin(whole, path);
      var i := length;
      while i > 0
        invariant 0 <= i <= length && fullPath[..] == whole
        invariant forall j :: i < j < |path| ==> path[j] != '/'
      {
        if i < |path| { HoldsAt(whole, path, i); }
        if fullPath[i] == '/' {
          break;
        }
        i := i - 1;
      }
      assert i == Cut(path);
      fullPath[i] := NUL;
      fnameOff := i + 1;
      assert fullPath[..] == whole[i := NUL];
    }

    /** What holds from p_set_fname_off on: the parts, or the joined path if it has both. */
    ghost predicate Valid()
      reads this, fullPath
    {
      Parted() || (Cut(path) > 0 && Whole())
    }

    /** udo_file_ops_get_filename: where in the buffer the name starts. */
    method GetFilename() returns (r: Option<nat>)
      requires Valid()
      ensures r == Some(Cut(path) + 1)
      ensures path != "" ==> CStr(fullPath[..], Cut(path) + 1) == path[Cut(path) + 1..]
    {
      if Parted() { PartStrings(fullPath[..], path); } else { WholeString(fullPath[..], path, Cut(path) + 1); }
      if fnameOff == 0 {
        return None;
      }
      r := Some(fnameOff);
    }

    /** udo_file_ops_get_dirname: the start of the buffer, unless there is no directory;
        while the path is joined, that is the whole path. */
    method GetDirname() returns (r: Option<nat>)
      requires Valid()
      ensures r == if Cut(path) == 0 then None else Some(0)
      ensures CStr(fullPath[..], 0) == if Parted() then path[..Cut(path)] else path
    {
      if Parted() {
        PartStrings(fullPath[..], path);
      } else {
        WholeString(fullPath[..], path, 0);
      }
      if fullPath[0] == NUL {
        return None;
      }
      r := Some(0);
    }

    /** udo_file_ops_get_full_path: from either form to the whole path. */
    method GetFullPath() returns (r: Option<nat>)
      requires Valid()
      modifies fullPath
      ensures r == if Cut(path) == 0 then None else Some(0)
      ensures Cut(path) > 0 ==> Whole() && CStr(fullPath[..], 0) == path
      ensures Cut(path) == 0 ==> Parted()
      ensures fullPath[..] == if Cut(path) == 0 then old(fullPath[..]) else old(fullPath[..])[Cut(path) := '/']
    {
      PartAndJoin(fullPath[..], path);
      if Whole() && Cut(path) > 0 { HoldsAt(fullPath[..], path, 0); HoldsAt(fullPath[..], path, Cut(path)); }
      if fullPath[0] == NUL || fnameOff == 0 {
        return None;
      }
      fullPath[fnameOff - 1] := '/';
      assert fullPath[..] == old(fullPath[..])[Cut(path) := '/'];
      WholeString(fullPath[..], path, 0);
      r := Some(0);
    }

    /** udo_file_ops_reset_full_path: from either form back to the two parts. */
    method ResetFullPath()
      requires Valid()
      modifies fullPath
      ensures Parted()
      ensures fullPath[..] == old(fullPath[..])[Cut(path) := NUL]
    {
      PartAndJoin(fullPath[..], path);
      if Whole() && Cut(path) > 0 { HoldsAt(fullPath[..], path, 0); }
      if fullPath[0] == NUL || fnameOff == 0 {
        return;
      }
      fullPath[fnameOff - 1] := NUL;
      assert fullPath[..] == old(fullPath[..])[fnameOff - 1 := NUL];
    }
  }

  /** p_create_directories: mkdir is called for each prefix before a slash, and the buffer is
      as before. */
  method CreateDirectories(dir: array<char>, length: nat) returns (visited: seq<string>)
    requires length <= dir.Length && forall i :: 0 <= i < length ==> dir[i] != NUL
    modifies dir
    ensures dir[..] == old(dir[..])
    ensures visited == Prefixes(old(dir[..length]), length)
  {
    visited := [];
    ghost var before := dir[..];
    var i := 0;
    while i < length
      invariant i <= length && dir[..] == before
      invariant visited == Prefixes(before[..length], i)
    {
      if dir[i] == '/' {
        dir[i] := NUL;
        CStrUpTo(dir[..], 0, i);
        visited := visited + [CStr(dir[..], 0)];
        assert dir[..][..i] == before[..length][..i];
        dir[i] := '/';
        assert dir[..] == before;
      }
      i := i + 1;
    }
  }
}
