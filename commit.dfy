/** The write-verify-publish commit of a cache file: write `<target>.test`,
    check that the file ends with the end marker, then either rename it over
    the target or unlink it. */
module Commit {
  import opened Php
  import opened Files

  /** The sibling path the payload is written to first. */
  function TestPath(target: string): (test: string)
    ensures target < test
  {
    target + ".test"
  }

  /** The check the commit makes on the written `.test` file. */
  predicate Passes(files: Files, target: string, marker: seq<char>) {
    TestPath(target) in files && TailLineIs(files[TestPath(target)], marker)
  }

  /** The files after the check: a passing `.test` file replaces the target,
      a failing one is removed and the target keeps what it had. */
  function AfterPublish(files: Files, target: string, marker: seq<char>): (r: Files)
    ensures TestPath(target) !in r
    ensures SameElsewhere(files, r, {target, TestPath(target)})
    ensures Passes(files, target, marker) ==>
              target in r && r[target] == files[TestPath(target)]
    ensures !Passes(files, target, marker) ==>
              (target in r <==> target in files) && (target in files ==> r[target] == files[target])
  {
    var test := TestPath(target);
    if test in files && TailLineIs(files[test], marker) then Renamed(files, test, target)
    else files - {test}
  }

  /** The whole commit, step by step as the shutdown closure runs it. */
  method CommitFile(fs: FileSystem, target: string, payload: seq<char>, marker: seq<char>, outcome: WriteOutcome)
    modifies fs
    ensures fs.files == AfterPublish(AfterWrite(old(fs.files), TestPath(target), payload, outcome), target, marker)
  {
    var test := TestPath(target);
    fs.PutContents(test, payload, outcome);
    var ok := fs.TailLineEquals(test, marker);
    if ok {
      fs.Rename(test, target);
    } else {
      fs.Unlink(test);
    }
  }

  /** An uninterrupted write of a payload that ends with the marker is published. */
  lemma CompleteWritePublishes(files: Files, target: string, payload: seq<char>, marker: seq<char>)
    requires marker != [] && '\n' !in marker && HasSuffix(payload, marker)
    ensures AfterPublish(AfterWrite(files, TestPath(target), payload, Complete), target, marker)
              == (files - {TestPath(target)})[target := payload]
  {
    var written := AfterWrite(files, TestPath(target), payload, Complete);
    TailLineIsSuffix(payload, marker);
    assert Passes(written, target, marker);
  }

  /** The marker occurs in `payload` only as its final bytes. */
  ghost predicate MarkerOnlyAtEnd(payload: seq<char>, marker: seq<char>) {
    forall k :: 0 <= k < |payload| ==> !HasSuffix(payload[..k], marker)
  }

  /** A write cut short before its last byte is discarded, provided the
      marker occurs in the payload only at its end: the target is left byte
      for byte as it was (or absent), and no `.test` file remains. Without
      that proviso the guard can be fooled (`MarkerInPayloadDefeatsCheck`). */
  lemma TornWriteKeepsTarget(files: Files, target: string, payload: seq<char>, marker: seq<char>, kept: nat)
    requires marker != [] && '\n' !in marker && MarkerOnlyAtEnd(payload, marker)
    requires kept < |payload|
    ensures AfterPublish(AfterWrite(files, TestPath(target), payload, Truncated(kept)), target, marker)
              == files - {TestPath(target)}
  {
    var written := AfterWrite(files, TestPath(target), payload, Truncated(kept));
    var stored := payload[..kept];
    assert written[TestPath(target)] == stored;
    TailLineIsSuffix(stored, marker);
    assert !Passes(written, target, marker);
  }

  /** A payload that holds the marker before its end, say a cached
      translation containing the marker text, defeats the check: a write cut
      right after that inner marker passes and its prefix is published. */
  lemma MarkerInPayloadDefeatsCheck(files: Files, target: string, head: seq<char>, marker: seq<char>, tail: seq<char>)
    requires marker != [] && '\n' !in marker
    ensures var payload := head + marker + tail;
            AfterPublish(AfterWrite(files, TestPath(target), payload, Truncated(|head| + |marker|)), target, marker)
              == (files - {TestPath(target)})[target := head + marker]
  {
    var payload := head + marker + tail;
    var written := AfterWrite(files, TestPath(target), payload, Truncated(|head| + |marker|));
    assert payload[..|head| + |marker|] == head + marker;
    assert Stored(payload, Truncated(|head| + |marker|)) == head + marker;
    assert written == files[TestPath(target) := head + marker];
    SuffixOfConcat(head, marker);
    TailLineIsSuffix(head + marker, marker);
    assert Passes(written, target, marker);
  }
}
