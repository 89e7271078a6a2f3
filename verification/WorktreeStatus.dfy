/** The NUL-delimited status of a worktree: a parser that inverts the printer of Git, and what it lets pass.

    Texts stand for byte strings where they are encoded, one character per byte. */
module WorktreeStatus {
  import opened Options
  import opened Text

  /** One record of `git status --porcelain -z`; a rename or a copy has the path it came from. */
  datatype Record = Record(status: string, path: string, origin: Option<string>)

  predicate HasOrigin(status: string) {
    'R' in status || 'C' in status
  }

  predicate ValidRecord(r: Record) {
    && |r.status| == 2 && '\0' !in r.status && r.path != "" && '\0' !in r.path
    && (r.origin.Some? <==> 'R' in r.status || 'C' in r.status)
    && (r.origin.Some? ==> r.origin.value != "" && '\0' !in r.origin.value)
  }

  /** UTF-8. */
  datatype Codec = Codec(encode: string -> string, decode: string -> Option<string>)

  ghost predicate Faithful(c: Codec) {
    forall s :: c.decode(c.encode(s)) == Some(s) && ('\0' in c.encode(s) <==> '\0' in s) && (c.encode(s) == "" <==> s == "")
  }

  // ---- The printer -----------------------------------------------------------------------------

  function Entries(r: Record, c: Codec): seq<string> {
    [c.encode(r.status + " " + r.path)] + if r.origin.Some? then [c.encode(r.origin.value)] else []
  }

  function AllEntries(records: seq<Record>, c: Codec): seq<string> {
    if records == [] then [] else Entries(records[0], c) + AllEntries(records[1..], c)
  }

  /** Every entry ended by a NUL. */
  function Ended(entries: seq<string>): string {
    if entries == [] then "" else entries[0] + "\0" + Ended(entries[1..])
  }

  function Render(records: seq<Record>, c: Codec): string {
    Ended(AllEntries(records, c))
  }

  // ---- The parser ------------------------------------------------------------------------------

  /** An entry that starts a record: two letters, a space and a path. */
  function Head(entry: string, c: Codec): Option<(string, string)> {
    var decoded := c.decode(entry);
    if decoded.None? || |decoded.value| < 4 || decoded.value[2] != ' ' then None
    else Some((decoded.value[..2], decoded.value[3..]))
  }

  /** The records of the entries; none when they are malformed. */
  function Records(entries: seq<string>, c: Codec): Option<seq<Record>>
    decreases |entries|
  {
    if entries == [] then Some([])
    else if entries[0] == "" then Records(entries[1..], c)
    else
      var head := Head(entries[0], c);
      if head.None? then None
      else if HasOrigin(head.value.0) then
        if |entries| < 2 || entries[1] == "" || c.decode(entries[1]).None? then None
        else Before(Record(head.value.0, head.value.1, c.decode(entries[1])), Records(entries[2..], c))
      else Before(Record(head.value.0, head.value.1, None), Records(entries[1..], c))
  }

  function Before(r: Record, rest: Option<seq<Record>>): Option<seq<Record>> {
    if rest.None? then None else Some([r] + rest.value)
  }

  /** The record is of an ignored path that may be there. */
  predicate Expected(r: Record, allowed: set<string>) {
    r.status == "!!" && r.path in allowed && (r.origin.Some? ==> r.origin.value in allowed)
  }

  const STATUS_LIMIT := 8_000_000

  /** The release directory, relative to the worktree. */
  datatype ReleasePath = ReleasePath(absolute: bool, parts: seq<string>)

  function AllowedPaths(release: ReleasePath, names: set<string>): set<string> {
    set name | name in names + {"release-manifest.json", "SHA256SUMS"} :: Join(release.parts + [name])
  }

  predicate PathUnsafe(release: ReleasePath) {
    release.absolute || exists part | part in release.parts :: part == "" || part == "." || part == ".."
  }

  /** What must be decided of a status. */
  predicate StatusOk(status: string, release: ReleasePath, names: set<string>, c: Codec) {
    var records := Records(Split(status, '\0'), c);
    && |status| <= STATUS_LIMIT && !PathUnsafe(release) && records.Some?
    && forall r | r in records.value :: Expected(r, AllowedPaths(release, names))
  }

  /** What the loop has met: `unexpected` says whether a path was, and the rest is still to be parsed. */
  ghost predicate Progress(entries: seq<string>, index: nat, unexpected: bool, allowed: set<string>, c: Codec)
    requires index <= |entries|
  {
    var all, rest := Records(entries, c), Records(entries[index..], c);
    && (all.Some? <==> rest.Some?)
    && (all.Some? ==> ((forall r | r in all.value :: Expected(r, allowed)) <==>
                       !unexpected && forall r | r in rest.value :: Expected(r, allowed)))
  }

  lemma ExpectedFirst(r: Record, rest: seq<Record>, allowed: set<string>)
    ensures (forall x | x in [r] + rest :: Expected(x, allowed)) <==>
            Expected(r, allowed) && forall x | x in rest :: Expected(x, allowed)
  {
    hide Expected;
    assert r in [r] + rest && forall x | x in rest :: x in [r] + rest;
  }

  /** `verify_release_worktree_status`. */
  method VerifyStatus(status: string, release: ReleasePath, names: set<string>, c: Codec) returns (ok: bool)
    ensures ok <==> StatusOk(status, release, names, c)
  {
    hide Head, Expected, AllowedPaths;
    if |status| > STATUS_LIMIT || PathUnsafe(release) {
      return false;
    }
    var allowed := AllowedPaths(release, names);
    var entries := Split(status, '\0');
    var index, unexpected := 0, false;
    assert entries[0..] == entries;
    while index < |entries|
      invariant index <= |entries| && Progress(entries, index, unexpected, allowed, c)
    {
      var entry := entries[index];
      ghost var rest := entries[index..];
      index := index + 1;
      assert rest[0] == entry && rest[1..] == entries[index..];
      if entry == "" {
        continue;
      }
      var head := Head(entry, c);
      if head.None? {
        return false;
      }
      var record := Record(head.value.0, head.value.1, None);
      if HasOrigin(record.status) {
        if index >= |entries| || entries[index] == "" || c.decode(entries[index]).None? {
          return false;
        }
        record := record.(origin := c.decode(entries[index]));
        index := index + 1;
        assert rest[2..] == entries[index..];
      }
      ghost var others := Records(entries[index..], c);
      assert Records(rest, c) == Before(record, others);
      if others.Some? {
        ExpectedFirst(record, others.value, allowed);
      }
      if !Expected(record, allowed) {
        unexpected := true;
      }
    }
    ok := !unexpected;
  }

  // ---- The parser inverts the printer ----------------------------------------------------------

  lemma {:induction false} EndedJoins(entries: seq<string>)
    ensures Ended(entries) == Join(entries + [""], '\0')
  {
    if entries != [] {
      EndedJoins(entries[1..]);
      assert entries + [""] == [entries[0]] + (entries[1..] + [""]);
      JoinCons(entries[0], entries[1..] + [""], '\0');
    }
  }

  lemma {:induction false} EntriesClean(records: seq<Record>, c: Codec)
    requires Faithful(c) && forall r | r in records :: ValidRecord(r)
    ensures forall x | x in AllEntries(records, c) :: '\0' !in x
  {
    if records != [] {
      EntriesClean(records[1..], c);
      var r := records[0];
      assert r in records;
      var text := r.status + " " + r.path;
      assert '\0' !in text;
      assert '\0' !in c.encode(text);
    }
  }

  lemma HeadOf(r: Record, c: Codec)
    requires Faithful(c) && ValidRecord(r)
    ensures Head(c.encode(r.status + " " + r.path), c) == Some((r.status, r.path))
    ensures c.encode(r.status + " " + r.path) != ""
  {
    var text := r.status + " " + r.path;
    assert text[..2] == r.status && text[3..] == r.path && text[2] == ' ';
  }

  lemma {:induction false} RecordsOfEntries(records: seq<Record>, c: Codec)
    requires Faithful(c) && forall r | r in records :: ValidRecord(r)
    ensures Records(AllEntries(records, c) + [""], c) == Some(records)
  {
    if records == [] {
      assert [] + [""] == [""] && [""][1..] == [];
      assert Records([""], c) == Records([], c);
    } else {
      var r, rest := records[0], AllEntries(records[1..], c) + [""];
      RecordsOfEntries(records[1..], c);
      HeadOf(r, c);
      var entries := AllEntries(records, c) + [""];
      if r.origin.Some? {
        assert entries == [c.encode(r.status + " " + r.path), c.encode(r.origin.value)] + rest;
        assert entries[2..] == rest;
      } else {
        assert entries == [c.encode(r.status + " " + r.path)] + rest;
        assert entries[1..] == rest;
      }
      assert records == [r] + records[1..];
    }
  }

  /** Any list of records, renames and copies included, is recovered from its rendering. */
  lemma ParseInvertsRender(records: seq<Record>, c: Codec)
    requires Faithful(c) && forall r | r in records :: ValidRecord(r)
    ensures Records(Split(Render(records, c), '\0'), c) == Some(records)
  {
    EndedJoins(AllEntries(records, c));
    EntriesClean(records, c);
    JoinSplit(AllEntries(records, c) + [""], '\0');
    RecordsOfEntries(records, c);
  }

  // ---- What passes -----------------------------------------------------------------------------

  /** The path of a release file: one of the names, the manifest or the sums, below the release directory. */
  ghost predicate ReleaseFile(path: string, release: ReleasePath, names: set<string>) {
    exists name ::
      (name in names || name == "release-manifest.json" || name == "SHA256SUMS") && path == Join(release.parts + [name])
  }

  lemma AllowedMeans(path: string, release: ReleasePath, names: set<string>)
    ensures path in AllowedPaths(release, names) <==> ReleaseFile(path, release, names)
  {
    if ReleaseFile(path, release, names) {
      var name :| (name in names || name == "release-manifest.json" || name == "SHA256SUMS")
                  && path == Join(release.parts + [name]);
      assert name in names + {"release-manifest.json", "SHA256SUMS"};
    }
  }

  /** A release directory inside the worktree, named without detours. */
  ghost predicate SafeRelease(release: ReleasePath) {
    !release.absolute && "" !in release.parts && "." !in release.parts && ".." !in release.parts
  }

  /** A rendered status passes exactly when it is within the limit and every record is of an ignored release file: in
      particular no rename and no copy passes. */
  lemma RenderedStatusOk(records: seq<Record>, release: ReleasePath, names: set<string>, c: Codec)
    requires Faithful(c) && forall r | r in records :: ValidRecord(r)
    ensures StatusOk(Render(records, c), release, names, c) <==>
      |Render(records, c)| <= 8_000_000 && SafeRelease(release)
      && forall r | r in records :: r.status == "!!" && r.origin.None? && ReleaseFile(r.path, release, names)
  {
    ParseInvertsRender(records, c);
    hide AllowedPaths, ReleaseFile;
    forall r | r in records
      ensures Expected(r, AllowedPaths(release, names)) <==>
              r.status == "!!" && r.origin.None? && ReleaseFile(r.path, release, names)
    {
      assert r.status == "!!" ==> !HasOrigin(r.status);
      AllowedMeans(r.path, release, names);
    }
  }

  /** An entry that is empty, or the two marks of an ignored path and a release file. */
  ghost predicate IgnoredEntry(entry: string, release: ReleasePath, names: set<string>, c: Codec) {
    entry == "" || exists path :: path != "" && c.decode(entry) == Some("!! " + path) && ReleaseFile(path, release, names)
  }

  lemma HeadExpected(entry: string, release: ReleasePath, names: set<string>, c: Codec)
    requires entry != ""
    ensures IgnoredEntry(entry, release, names, c) <==>
            && Head(entry, c).Some? && Head(entry, c).value.0 == "!!"
            && Head(entry, c).value.1 in AllowedPaths(release, names)
  {
    hide AllowedPaths, ReleaseFile;
    if path :| path != "" && c.decode(entry) == Some("!! " + path) && ReleaseFile(path, release, names) {
      assert ("!! " + path)[..2] == "!!" && ("!! " + path)[3..] == path;
      AllowedMeans(path, release, names);
    }
    if Head(entry, c).Some? && Head(entry, c).value.0 == "!!" && Head(entry, c).value.1 in AllowedPaths(release, names) {
      var path := Head(entry, c).value.1;
      AllowedMeans(path, release, names);
      var decoded := c.decode(entry).value;
      assert decoded == decoded[..2] + [decoded[2]] + decoded[3..] == "!! " + path;
    }
  }

  /** Whether the entries are records that pass is decided entry by entry, although a rename takes two. */
  lemma {:induction false} EntriesPass(entries: seq<string>, release: ReleasePath, names: set<string>, c: Codec)
    ensures var records := Records(entries, c);
            (records.Some? && forall r | r in records.value :: Expected(r, AllowedPaths(release, names))) <==>
            forall entry | entry in entries :: IgnoredEntry(entry, release, names, c)
    decreases |entries|
  {
    hide AllowedPaths, IgnoredEntry, Head;
    if entries != [] {
      var first, rest := entries[0], entries[1..];
      assert first in entries && forall x | x in rest :: x in entries;
      assert forall x | x in entries :: x == first || x in rest;
      EntriesPass(rest, release, names, c);
      if first == "" {
        assert IgnoredEntry(first, release, names, c) by { EmptyEntry(release, names, c); }
      } else {
        HeadExpected(first, release, names, c);
        var head := Head(first, c);
        if head.Some? && !HasOrigin(head.value.0) && Records(rest, c).Some? {
          ExpectedFirst(Record(head.value.0, head.value.1, None), Records(rest, c).value, AllowedPaths(release, names));
        } else if Records(entries, c).Some? {
          var r := Records(entries, c).value[0];
          assert r.status == head.value.0 && HasOrigin(r.status);
          assert r.status != "!!" && r in Records(entries, c).value;
        } else if head.Some? && HasOrigin(head.value.0) {
          assert head.value.0 != "!!";
        }
      }
    }
  }

  lemma EmptyEntry(release: ReleasePath, names: set<string>, c: Codec)
    ensures IgnoredEntry("", release, names, c)
  {
  }

  /** Any status, whoever wrote it, passes exactly when it is within the limit, the release directory lies inside the
      worktree and every entry between its NULs is empty or names an ignored release file. */
  lemma StatusMeans(status: string, release: ReleasePath, names: set<string>, c: Codec)
    ensures StatusOk(status, release, names, c) <==>
      |status| <= 8_000_000 && SafeRelease(release)
      && forall entry | entry in Split(status, '\0') :: IgnoredEntry(entry, release, names, c)
  {
    hide IgnoredEntry, AllowedPaths, Expected, Records;
    EntriesPass(Split(status, '\0'), release, names, c);
  }
}
