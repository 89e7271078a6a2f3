/** What an accepted release says: its artifacts by name, its manifest member by member, its checksums line by line. */
module ReleaseContents {
  import opened Options
  import opened Ordering
  import opened ReleaseManifest
  import opened Text

  // ---- Artifacts -------------------------------------------------------------------------------

  ghost predicate Ends(name: string, suffix: string) {
    exists head :: name == head + suffix
  }

  lemma EndsMeans(name: string, suffix: string)
    ensures EndsWith(name, suffix) <==> Ends(name, suffix)
  {
    if EndsWith(name, suffix) {
      assert name == name[..|name| - |suffix|] + suffix;
    }
  }

  /** What the directory holds besides generated metadata, temporary files and the tool's own files is published. */
  lemma PublishableMeans(d: Directory, name: string)
    ensures name in Publishable(d) <==>
      && name in d && !Ends(name, ".tmp")
      && name !in {"release-manifest.json", "SHA256SUMS", ".gitkeep", ".trivy-cache", ".trivyignore"}
  {
    EndsMeans(name, ".tmp");
    hide Ends, EndsWith;
  }

  const WHEEL := ".whl"
  const INSTALLER := "install-0.1.7.tar.gz"
  const CODEX_SKILLS := "-codex-skills-1.0.0.tar.gz"
  const CLAUDE_SKILLS := "-claude-skills-1.0.0.tar.gz"
  const SPDX := "image.spdx.json"
  const CYCLONE := "image.cyclonedx.json"
  const IMAGE_SCAN := "image-vulnerabilities.json"
  const SOURCE_SCAN := "source-security.json"
  const ACCEPTANCE := "vulnerability-risk-acceptance.json"

  /** Some name ends with each of the nine required suffixes. */
  ghost predicate NamesEnd(names: set<string>) {
    && Somewhere(names, WHEEL) && Somewhere(names, INSTALLER) && Somewhere(names, CODEX_SKILLS)
    && Somewhere(names, CLAUDE_SKILLS) && Somewhere(names, SPDX) && Somewhere(names, CYCLONE)
    && Somewhere(names, IMAGE_SCAN) && Somewhere(names, SOURCE_SCAN) && Somewhere(names, ACCEPTANCE)
  }

  lemma SuffixesSpelt()
    ensures SUFFIXES ==
            [WHEEL, INSTALLER, CODEX_SKILLS, CLAUDE_SKILLS, SPDX, CYCLONE, IMAGE_SCAN, SOURCE_SCAN, ACCEPTANCE]
  {
  }

  ghost predicate Somewhere(names: set<string>, suffix: string) {
    exists name | name in names :: Ends(name, suffix)
  }

  lemma SuffixSomewhere(names: seq<string>, suffix: string)
    ensures SomeEnds(names, suffix) <==> Somewhere((set name | name in names), suffix)
  {
    hide EndsWith, Ends;
    forall name
      ensures EndsWith(name, suffix) <==> Ends(name, suffix)
    {
      EndsMeans(name, suffix);
    }
  }

  lemma SuffixesMean(names: seq<string>)
    ensures HasSuffixes(names) <==> NamesEnd(set name | name in names)
  {
    SuffixesSpelt();
    hide SomeEnds, Somewhere, SUFFIXES, WHEEL, INSTALLER, CODEX_SKILLS, CLAUDE_SKILLS, SPDX, CYCLONE, IMAGE_SCAN,
      SOURCE_SCAN, ACCEPTANCE;
    forall suffix
      ensures SomeEnds(names, suffix) <==> Somewhere((set name | name in names), suffix)
    {
      SuffixSomewhere(names, suffix);
    }
    var w := SUFFIXES;
    assert w[0] in w && w[1] in w && w[2] in w && w[3] in w && w[4] in w && w[5] in w && w[6] in w && w[7] in w && w[8] in w;
    assert forall suffix | suffix in w ::
      suffix == w[0] || suffix == w[1] || suffix == w[2] || suffix == w[3] || suffix == w[4] || suffix == w[5]
      || suffix == w[6] || suffix == w[7] || suffix == w[8];
  }

  /** A directory is taken as a release, in whatever order it is listed, exactly when it publishes one to a hundred
      regular files with safe names, among them one of each required kind. */
  lemma ArtifactFilesMean(d: Directory, listing: seq<string>, t: Tools)
    requires Lists(listing, d)
    ensures ArtifactFiles(d, listing, t).Some? <==>
      && 1 <= |Publishable(d)| <= 100 && NamesEnd(Publishable(d))
      && forall name | name in Publishable(d) :: d[name].File? && t.safeName(name)
  {
    ArtifactNames(d, listing, t);
    hide IsPublishable, Lists, Sort, Filter, HasSuffixes, NamesEnd;
    var names := Sort(Filter(listing), StrLe);
    SuffixesMean(names);
    assert Publishable(d) == set name | name in names;
    DistinctCount(names);
  }

  lemma {:induction false} DistinctCount(names: seq<string>)
    requires Distinct(names)
    ensures |set name | name in names| == |names|
  {
    if names != [] {
      var rest, last := names[..|names| - 1], names[|names| - 1];
      DistinctCount(rest);
      assert names == rest + [last];
      assert (set name | name in names) == (set name | name in rest) + {last};
    }
  }

  // ---- Manifest --------------------------------------------------------------------------------

  /** An accepted manifest is a current one, and it names the candidate and the time of its sources. */
  lemma AcceptedManifest(d: Directory, listing: seq<string>, c: Candidate, m: Manifest, t: Tools)
    requires ReleaseOk(d, listing, c, m, t)
    ensures "release-manifest.json" in d && d["release-manifest.json"].File? && "SHA256SUMS" in d && d["SHA256SUMS"].File?
    ensures |d["release-manifest.json"].content| <= 8_000_000 && |d["SHA256SUMS"].content| <= 8_000_000
    ensures t.parse(d["release-manifest.json"].content) == Some(m)
    ensures m.sourceCommit == c.sourceCommit && m.imageReference == c.imageReference && m.imageId == c.imageId
    ensures t.isCommit(c.sourceCommit) && t.isImageId(c.imageId)
    ensures m.epoch >= 0 && t.timeOf(m.epoch) == Some(m.createdAt) && 1 <= |m.artifacts| <= 100
    ensures m.fixed.schemaVersion == 2 && m.fixed.version == "0.1.7"
    ensures m.fixed.kind == "anva.generated-release-manifest" && m.fixed.publication == "generated_unpublished"
    ensures Limits(m.fixed.limitations)
  {
    hide RecordsOk, ArtifactFiles, SumsText, Universal;
  }

  /** The three statements of what a generated manifest does not claim. */
  ghost predicate Limits(s: seq<string>) {
    && |s| == 3
    && s[0] == "The recorded image ID identifies the locally verified OCI image."
    && s[1] == "A registry digest and signed tag are recorded only by the publication step."
    && s[2] == "External fresh-agent and human acceptance evidence is not generated here."
  }

  // ---- Checksums -------------------------------------------------------------------------------

  /** The lines of a text that ends its last one. */
  function LinesOf(records: seq<ArtifactRecord>): seq<string> {
    if records == [] then []
    else
      var last := records[|records| - 1];
      LinesOf(records[..|records| - 1]) + [last.sha256 + "  " + last.path]
  }

  lemma {:induction false} LinesAt(records: seq<ArtifactRecord>)
    requires forall r | r in records :: '\n' !in r.sha256 && '\n' !in r.path
    ensures |LinesOf(records)| == |records|
    ensures forall i | 0 <= i < |records| :: LinesOf(records)[i] == records[i].sha256 + "  " + records[i].path
    ensures forall line | line in LinesOf(records) :: '\n' !in line
  {
    if records != [] {
      LinesAt(records[..|records| - 1]);
      var last := records[|records| - 1];
      assert last in records;
    }
  }

  lemma {:induction false} JoinLast(lines: seq<string>, line: string)
    ensures Join(lines + [line, ""], '\n') == Join(lines + [""], '\n') + line + "\n"
  {
    if lines == [] {
      assert [] + [line, ""] == [line] + [""] && [] + [""] == [""];
      JoinCons(line, [""], '\n');
      assert line + "\n" + "" == "" + line + "\n";
    } else {
      var rest := lines[1..];
      JoinLast(rest, line);
      assert lines + [line, ""] == [lines[0]] + (rest + [line, ""]);
      assert lines + [""] == [lines[0]] + (rest + [""]);
      JoinCons(lines[0], rest + [line, ""], '\n');
      JoinCons(lines[0], rest + [""], '\n');
    }
  }

  lemma {:induction false} LinesJoined(records: seq<ArtifactRecord>)
    ensures Lines(records) == Join(LinesOf(records) + [""], '\n')
  {
    if records == [] {
      assert [] + [""] == [""];
    } else {
      var rest, last := records[..|records| - 1], records[|records| - 1];
      var line := last.sha256 + "  " + last.path;
      LinesJoined(rest);
      JoinLast(LinesOf(rest), line);
      assert LinesOf(records) + [""] == LinesOf(rest) + [line, ""];
    }
  }

  /** An accepted checksum file is read as one line for each record, in their order, a last one for the manifest, and
      no other: a digest, two blanks and a name. */
  lemma AcceptedLines(d: Directory, listing: seq<string>, c: Candidate, m: Manifest, t: Tools)
    requires Faithful(t) && ReleaseOk(d, listing, c, m, t)
    ensures "SHA256SUMS" in d && d["SHA256SUMS"].File? && "release-manifest.json" in d && d["release-manifest.json"].File?
    ensures var lines, n := Split(Universal(d["SHA256SUMS"].content), '\n'), |m.artifacts|;
            && |lines| == n + 2
            && (forall i | 0 <= i < n :: lines[i] == m.artifacts[i].sha256 + "  " + m.artifacts[i].path)
            && lines[n] == t.sha256(d["release-manifest.json"].content) + "  " + "release-manifest.json"
            && lines[n + 1] == ""
  {
    hide ArtifactFiles, ProvenanceOk, Universal, Lines;
    var records, digest := m.artifacts, t.sha256(d[MANIFEST].content);
    forall r | r in records
      ensures '\n' !in r.sha256 && '\n' !in r.path
    {
      assert RecordOk(d, r, t);
    }
    assert t.isDigest(digest);
    hide Faithful, RecordsOk, Split;
    NameOnOneLine();
    SumsSplit(records, digest + "  " + MANIFEST);
    Regroup(Lines(records), digest + "  " + MANIFEST, "\n");
  }

  lemma NameOnOneLine()
    ensures '\n' !in MANIFEST
  {
  }

  lemma SumsSplit(records: seq<ArtifactRecord>, last: string)
    requires '\n' !in last && forall r | r in records :: '\n' !in r.sha256 && '\n' !in r.path
    ensures var lines, n := Split(Lines(records) + last + "\n", '\n'), |records|;
            && |lines| == n + 2 && lines[n] == last && lines[n + 1] == ""
            && forall i | 0 <= i < n :: lines[i] == records[i].sha256 + "  " + records[i].path
  {
    LinesAt(records);
    LinesJoined(records);
    hide Lines, LinesOf, Split, Join;
    JoinLast(LinesOf(records), last);
    JoinSplit(LinesOf(records) + [last, ""], '\n');
  }
}
