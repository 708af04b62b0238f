/** The line deduplicator: reads export files in order, skips the two header
    lines of each, and writes every data line the first time it is seen.
    Files are given already read, as sequences of lines: the lines Python's
    text mode yields, where "\r\n" and "\r" are read as "\n" and every line
    but possibly the last keeps that "\n". Two lines are the same only if
    they are equal as read. */
module Dedupe {

  /** Lines of each file that are headers, not data. */
  const HeaderLines: nat := 2

  /** How a run ended: after the last file, or on a file too short to hold
      the two header lines (reading the missing header raises and stops the
      script; what was written before stays written). */
  datatype Status = Completed | MissingHeader(file: nat)

  /** The lines written and how the run ended. */
  datatype Output = Output(lines: seq<string>, status: Status)

  predicate Distinct(s: seq<string>) {
    forall i, j :: 0 <= i < j < |s| ==> s[i] != s[j]
  }

  /** Reference definition: the lines of s, each kept at its first
      occurrence only. */
  function Unique(s: seq<string>): (u: seq<string>)
    ensures forall x :: x in u <==> x in s
    ensures Distinct(u)
    ensures |u| <= |s|
  {
    if |s| == 0 then []
    else
      var u := Unique(s[..|s| - 1]);
      if s[|s| - 1] in u then u else u + [s[|s| - 1]]
  }

  /** The position where x first occurs in s. */
  function FirstIndex(s: seq<string>, x: string): (i: nat)
    requires x in s
    ensures i < |s| && s[i] == x
    ensures forall j :: 0 <= j < i ==> s[j] != x
  {
    if s[0] == x then 0 else 1 + FirstIndex(s[1..], x)
  }

  /** The number of leading files that hold both header lines; the script
      reads exactly these before it completes or stops. */
  function ReadableCount(files: seq<seq<string>>): (n: nat)
    ensures n <= |files|
    ensures forall j :: 0 <= j < n ==> |files[j]| >= HeaderLines
    ensures n < |files| ==> |files[n]| < HeaderLines
  {
    if |files| == 0 || |files[0]| < HeaderLines then 0
    else 1 + ReadableCount(files[1..])
  }

  /** The data lines of the files, file after file, headers dropped. */
  function DataLines(files: seq<seq<string>>): seq<string>
    requires forall j :: 0 <= j < |files| ==> |files[j]| >= HeaderLines
  {
    if |files| == 0 then []
    else DataLines(files[..|files| - 1]) + files[|files| - 1][HeaderLines..]
  }

  /** What the script writes for `files`: the first occurrences among the
      data lines of the files it can read, and how it ends. */
  function Dedupe(files: seq<seq<string>>): (r: Output)
    ensures r.status.Completed? <==> forall j :: 0 <= j < |files| ==> |files[j]| >= HeaderLines
    ensures r.status.MissingHeader? ==> r.status.file < |files| && |files[r.status.file]| < HeaderLines
    ensures Distinct(r.lines)
  {
    var n := ReadableCount(files);
    Output(Unique(DataLines(files[..n])), if n == |files| then Completed else MissingHeader(n))
  }

  /** The script's loop: a set of lines seen so far, and a line is written
      only when it is not in the set. */
  method DedupeFiles(files: seq<seq<string>>) returns (out: seq<string>, status: Status)
    ensures Output(out, status) == Dedupe(files)
    ensures Distinct(out)
  {
    var seen: set<string> := {};
    out := [];
    var i := 0;
    while i < |files|
      invariant 0 <= i <= |files|
      invariant forall j :: 0 <= j < i ==> |files[j]| >= HeaderLines
      invariant out == Unique(DataLines(files[..i]))
      invariant forall x :: x in seen <==> x in out
    {
      var file := files[i];
      if |file| < HeaderLines {
        ReadableCountStops(files, i);
        return out, MissingHeader(i);
      }
      out, seen := DedupeFile(DataLines(files[..i]), file, out, seen);
      DataLinesStep(files, i);
      i := i + 1;
    }
    assert files[..i] == files;
    ReadableCountStops(files, i);
    status := Completed;
  }

  /** One more line: Unique either keeps its output or appends the line. */
  lemma UniqueStep(s: seq<string>, line: string)
    ensures Unique(s + [line]) == if line in Unique(s) then Unique(s) else Unique(s) + [line]
  {
    assert (s + [line])[..|s|] == s;
  }

  /** The script's inner loop over the data lines of one file, continuing
      after the lines `before` of the earlier files, whose first
      occurrences `out0` are written and make up the seen-set `seen0`. */
  method DedupeFile(before: seq<string>, file: seq<string>, out0: seq<string>, seen0: set<string>)
    returns (out: seq<string>, seen: set<string>)
    requires |file| >= HeaderLines
    requires out0 == Unique(before)
    requires forall x :: x in seen0 <==> x in out0
    ensures out == Unique(before + file[HeaderLines..])
    ensures forall x :: x in seen <==> x in out
  {
    out, seen := out0, seen0;
    var n := HeaderLines;
    assert before + file[HeaderLines..n] == before;
    while n < |file|
      invariant HeaderLines <= n <= |file|
      invariant out == Unique(before + file[HeaderLines..n])
      invariant forall x :: x in seen <==> x in out
    {
      var line := file[n];
      UniqueOfNextLine(before, file, n);
      if line !in seen {
        out := out + [line];
        seen := seen + {line};
      }
      n := n + 1;
    }
    assert file[HeaderLines..n] == file[HeaderLines..];
  }

  /** One more line of the current file, as the loop reads it. */
  lemma UniqueOfNextLine(before: seq<string>, file: seq<string>, n: nat)
    requires HeaderLines <= n < |file|
    ensures Unique(before + file[HeaderLines..n + 1])
            == if file[n] in Unique(before + file[HeaderLines..n]) then Unique(before + file[HeaderLines..n])
               else Unique(before + file[HeaderLines..n]) + [file[n]]
  {
    var read := before + file[HeaderLines..n];
    assert file[HeaderLines..n + 1] == file[HeaderLines..n] + [file[n]];
    assert before + file[HeaderLines..n + 1] == read + [file[n]];
    UniqueStep(read, file[n]);
  }

  /** One more readable file appends its data lines. */
  lemma DataLinesStep(files: seq<seq<string>>, i: nat)
    requires i < |files|
    requires forall j :: 0 <= j <= i ==> |files[j]| >= HeaderLines
    ensures DataLines(files[..i + 1]) == DataLines(files[..i]) + files[i][HeaderLines..]
  {
    assert files[..i + 1][..i] == files[..i];
  }

  /** ReadableCount is the first file too short for its headers, or the
      number of files when there is none. */
  lemma {:induction false} ReadableCountStops(files: seq<seq<string>>, i: nat)
    requires i <= |files|
    requires forall j :: 0 <= j < i ==> |files[j]| >= HeaderLines
    requires i == |files| || |files[i]| < HeaderLines
    ensures ReadableCount(files) == i
    decreases i
  {
    if i > 0 {
      ReadableCountStops(files[1..], i - 1);
    }
  }

  // ---------------------------------------------------------------------
  // Properties

  /** The lines written are, as a set, exactly the data lines read. */
  lemma OutputIsEveryDataLine(files: seq<seq<string>>)
    requires forall j :: 0 <= j < |files| ==> |files[j]| >= HeaderLines
    ensures Dedupe(files).status == Completed
    ensures forall x :: x in Dedupe(files).lines <==> x in DataLines(files)
    ensures |Dedupe(files).lines| <= |DataLines(files)|
  {
    assert files[..|files|] == files;
  }

  /** Lines are written in the order of their first occurrence. */
  lemma {:induction false} FirstOccurrenceOrder(s: seq<string>)
    ensures forall i, j :: 0 <= i < j < |Unique(s)| ==> FirstIndex(s, Unique(s)[i]) < FirstIndex(s, Unique(s)[j])
    decreases |s|
  {
    if |s| > 0 {
      var init := s[..|s| - 1];
      var last := s[|s| - 1];
      FirstOccurrenceOrder(init);
      var u := Unique(init);
      assert s == init + [last];
      if last !in u {
        assert FirstIndex(s, last) == |s| - 1 by {
          assert forall j :: 0 <= j < |s| - 1 ==> s[j] == init[j];
        }
        var v := u + [last];
        assert Unique(s) == v;
        forall i, j | 0 <= i < j < |v|
          ensures FirstIndex(s, v[i]) < FirstIndex(s, v[j])
        {
          assert v[i] == u[i];
          FirstIndexOfExtension(init, last, u[i]);
          if j < |u| {
            assert v[j] == u[j];
            FirstIndexOfExtension(init, last, u[j]);
            assert FirstIndex(init, u[i]) < FirstIndex(init, u[j]);
          }
        }
      } else {
        assert Unique(s) == u;
        forall i, j | 0 <= i < j < |u|
          ensures FirstIndex(s, u[i]) < FirstIndex(s, u[j])
        {
          FirstIndexOfExtension(init, last, u[i]);
          FirstIndexOfExtension(init, last, u[j]);
          assert FirstIndex(init, u[i]) < FirstIndex(init, u[j]);
        }
      }
    }
  }

  lemma {:induction false} FirstIndexOfExtension(s: seq<string>, y: string, x: string)
    requires x in s
    ensures FirstIndex(s + [y], x) == FirstIndex(s, x)
    decreases |s|
  {
    if s[0] != x {
      assert (s + [y])[1..] == s[1..] + [y];
      FirstIndexOfExtension(s[1..], y, x);
    }
  }

  /** Lines written for earlier input come first and are never written
      again: the output for a + b starts with the output for a, and nothing
      after it was a line of a. */
  lemma {:induction false} SeenLinesSuppressed(a: seq<string>, b: seq<string>)
    ensures |Unique(a)| <= |Unique(a + b)| && Unique(a + b)[..|Unique(a)|] == Unique(a)
    ensures forall k :: |Unique(a)| <= k < |Unique(a + b)| ==> Unique(a + b)[k] !in a
    decreases |b|
  {
    if |b| == 0 {
      assert a + b == a;
    } else {
      var init := b[..|b| - 1];
      SeenLinesSuppressed(a, init);
      assert (a + b)[..|a + b| - 1] == a + init;
    }
  }

  /** The header lines are never looked at: files that differ only in their
      first two lines give the same output. */
  lemma HeadersIgnored(files: seq<seq<string>>, other: seq<seq<string>>)
    requires |files| == |other|
    requires forall j :: 0 <= j < |files| ==> |files[j]| == |other[j]|
    requires forall j :: 0 <= j < |files| && |files[j]| >= HeaderLines ==> files[j][HeaderLines..] == other[j][HeaderLines..]
    ensures Dedupe(files) == Dedupe(other)
  {
    var n := ReadableCount(files);
    ReadableCountStops(other, n);
    DataLinesOfBodies(files[..n], other[..n]);
  }

  lemma {:induction false} DataLinesOfBodies(files: seq<seq<string>>, other: seq<seq<string>>)
    requires |files| == |other|
    requires forall j :: 0 <= j < |files| ==> |files[j]| >= HeaderLines && |other[j]| >= HeaderLines
    requires forall j :: 0 <= j < |files| ==> files[j][HeaderLines..] == other[j][HeaderLines..]
    ensures DataLines(files) == DataLines(other)
    decreases |files|
  {
    if |files| > 0 {
      var m := |files| - 1;
      DataLinesOfBodies(files[..m], other[..m]);
    }
  }

  /** A run stopped by a short file writes what the files before it would
      have written on their own. */
  lemma StopsAtShortFile(files: seq<seq<string>>, k: nat)
    requires k < |files| && |files[k]| < HeaderLines
    requires forall j :: 0 <= j < k ==> |files[j]| >= HeaderLines
    ensures Dedupe(files) == Output(Dedupe(files[..k]).lines, MissingHeader(k))
  {
    ReadableCountStops(files, k);
    ReadableCountStops(files[..k], k);
    assert files[..k][..k] == files[..k];
  }
}
