/** The file system as the plugin sees it: a map from paths to bytes, the
    modification times of the files it asks about, and the few calls it makes
    (`file_put_contents`, `fopen`/`fseek`/`fgets`, `rename`, `unlink`). */
module Files {
  import opened Php

  type Files = map<string, seq<char>>

  /** How much of a `file_put_contents` reached the disk: all of it, only a
      prefix (the disk filled up), or nothing at all (the file could not be
      opened, so whatever was at the path stays). */
  datatype WriteOutcome = Complete | Truncated(kept: nat) | Failed

  /** `a` and `b` agree on every path outside `paths`. */
  ghost predicate SameElsewhere(a: Files, b: Files, paths: set<string>) {
    forall p :: p !in paths ==> (p in a <==> p in b) && (p in a ==> a[p] == b[p])
  }

  function Stored(data: seq<char>, outcome: WriteOutcome): seq<char>
    requires !outcome.Failed?
  {
    match outcome
    case Complete => data
    case Truncated(n) => if n < |data| then data[..n] else data
  }

  /** The files after `file_put_contents(path, data)` with the given outcome. */
  function AfterWrite(files: Files, path: string, data: seq<char>, outcome: WriteOutcome): (r: Files)
    ensures SameElsewhere(files, r, {path})
    ensures outcome.Failed? ==> r == files
    ensures !outcome.Failed? ==> path in r && r[path] <= data
    ensures outcome.Complete? ==> path in r && r[path] == data
  {
    if outcome.Failed? then files else files[path := Stored(data, outcome)]
  }

  /** The files after `rename(from, to)`; renaming a missing file changes nothing. */
  function Renamed(files: Files, from: string, to: string): (r: Files)
    ensures from in files ==> to in r && r[to] == files[from]
    ensures from in files && from != to ==> from !in r
    ensures SameElsewhere(files, r, {from, to})
    ensures from !in files ==> r == files
  {
    if from in files then (files - {from})[to := files[from]] else files
  }

  /** `fgets($fp)` without a length: the bytes up to and including the next
      newline, or up to the end of the file; false (here None) at the end. */
  function ReadLine(s: seq<char>): (line: Option<seq<char>>)
    ensures line.None? <==> s == []
    ensures line.Some? ==> line.value != [] && line.value <= s
    ensures line.Some? ==> forall i :: 0 <= i < |line.value| - 1 ==> line.value[i] != '\n'
    ensures line.Some? ==> line.value[|line.value| - 1] == '\n' || line.value == s
  {
    if s == [] then None
    else if s[0] == '\n' then Some(['\n'])
    else match ReadLine(s[1..])
      case None => Some([s[0]])
      case Some(rest) => Some([s[0]] + rest)
  }

  /** The position after `fseek($fp, -n, SEEK_END)` on a freshly opened file:
      a seek before the start fails and leaves the position at 0. */
  function SeekFromEnd(length: nat, n: nat): nat {
    if n <= length then length - n else 0
  }

  /** What the plugin's check reads: seek `|marker|` bytes back from the end
      and compare the line read there with `marker`. */
  predicate TailLineIs(content: seq<char>, marker: seq<char>) {
    ReadLine(content[SeekFromEnd(|content|, |marker|)..]) == Some(marker)
  }

  predicate HasSuffix(s: seq<char>, suffix: seq<char>) {
    |suffix| <= |s| && s[|s| - |suffix|..] == suffix
  }

  lemma SuffixOfConcat(head: seq<char>, suffix: seq<char>)
    ensures HasSuffix(head + suffix, suffix)
  {
    assert (head + suffix)[|head|..] == suffix;
  }

  /** A line read at the start of `s` equals a text without newlines exactly
      when that text is all of `s`. */
  lemma {:induction false} ReadLineWithoutNewline(s: seq<char>, m: seq<char>)
    requires m != [] && '\n' !in m
    ensures ReadLine(s) == Some(m) <==> s == m
  {
    if s == [] || s[0] == '\n' {
      assert s != [] ==> s[0] in s;
    } else if |m| == 1 {
      if s[1..] == [] {
        assert ReadLine(s) == Some([s[0]]);
        assert s == [s[0]];
      } else {
        assert |ReadLine(s).value| >= 2;
      }
    } else {
      assert m[1..] != [] && '\n' !in m[1..] by { assert forall c :: c in m[1..] ==> c in m; }
      ReadLineWithoutNewline(s[1..], m[1..]);
      if ReadLine(s) == Some(m) {
        assert ReadLine(s[1..]) == Some(m[1..]);
        assert s == [s[0]] + s[1..];
      }
      if s == m {
        assert ReadLine(s[1..]) == Some(m[1..]);
        assert [s[0]] + m[1..] == m;
      }
    }
  }

  /** The plugin's fseek/fgets check is a suffix comparison, for any marker
      that is non-empty and holds no newline. */
  lemma TailLineIsSuffix(content: seq<char>, marker: seq<char>)
    requires marker != [] && '\n' !in marker
    ensures TailLineIs(content, marker) <==> HasSuffix(content, marker)
  {
    var tail := content[SeekFromEnd(|content|, |marker|)..];
    ReadLineWithoutNewline(tail, marker);
    if |marker| > |content| {
      assert tail == content;
      assert tail != marker;
    }
  }

  class FileSystem {
    var files: Files
    /** Modification times, fixed for the length of one run. */
    const mtimes: map<string, int>

    constructor (files: Files, mtimes: map<string, int>)
      ensures this.files == files && this.mtimes == mtimes
    {
      this.files := files;
      this.mtimes := mtimes;
    }

    /** `filemtime($path)`: None where PHP returns false. */
    function FileMtime(path: string): Option<int> {
      if path in mtimes then Some(mtimes[path]) else None
    }

    /** `file_put_contents($path, $data, LOCK_EX)`. */
    method PutContents(path: string, data: seq<char>, outcome: WriteOutcome)
      modifies this
      ensures files == AfterWrite(old(files), path, data, outcome)
    {
      files := AfterWrite(files, path, data, outcome);
    }

    /** `fopen($path, 'rb')`, `fseek($fp, -strlen($marker), SEEK_END)` and
        `fgets($fp) === $marker`; a file that cannot be opened fails the check. */
    method TailLineEquals(path: string, marker: seq<char>) returns (b: bool)
      ensures b <==> path in files && TailLineIs(files[path], marker)
    {
      if path !in files {
        return false;
      }
      var content := files[path];
      var position := SeekFromEnd(|content|, |marker|);
      var line := ReadLine(content[position..]);
      b := line == Some(marker);
    }

    method Rename(from: string, to: string)
      modifies this
      ensures files == Renamed(old(files), from, to)
    {
      files := Renamed(files, from, to);
    }

    /** `unlink($path)`; unlinking a missing file changes nothing. */
    method Unlink(path: string)
      modifies this
      ensures files == old(files) - {path}
    {
      files := files - {path};
    }
  }
}
