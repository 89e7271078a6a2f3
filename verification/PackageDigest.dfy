/** The digest of a package: every file framed by the lengths of its path and of its content.

    Texts stand for byte strings here, one character per byte. */
module PackageDigest {
  import opened Ordering
  import opened Text

  /** A relative path, as its parts. */
  type Path = seq<string>

  predicate ValidPath(p: Path) {
    p != [] && forall part | part in p :: part != "" && '/' !in part
  }

  /** The order in which `sorted` puts paths: part by part. */
  predicate PathLe(a: Path, b: Path) {
    a == [] || (b != [] && if a[0] == b[0] then PathLe(a[1..], b[1..]) else StrLe(a[0], b[0]))
  }

  lemma {:induction false} PathLeTotal(a: Path, b: Path)
    ensures PathLe(a, b) || PathLe(b, a)
    ensures PathLe(a, b) && PathLe(b, a) ==> a == b
  {
    if a != [] && b != [] {
      StrLeTotal(a[0], b[0]);
      if a[0] == b[0] {
        PathLeTotal(a[1..], b[1..]);
        assert a == [a[0]] + a[1..] && b == [b[0]] + b[1..];
      }
    }
  }

  lemma {:induction false} PathLeTransitive(a: Path, b: Path, c: Path)
    requires PathLe(a, b) && PathLe(b, c)
    ensures PathLe(a, c)
  {
    if a != [] {
      StrLeTotal(a[0], b[0]);
      StrLeTotal(b[0], c[0]);
      if a[0] == b[0] == c[0] {
        PathLeTransitive(a[1..], b[1..], c[1..]);
      } else if a[0] != b[0] && b[0] != c[0] {
        StrLeTransitive(a[0], b[0], c[0]);
      }
    }
  }

  lemma PathLeIsTotalOrder()
    ensures TotalOrder(PathLe)
  {
    forall x, y
      ensures PathLe(x, y) || PathLe(y, x)
      ensures PathLe(x, y) && PathLe(y, x) ==> x == y
    {
      PathLeTotal(x, y);
    }
    forall x, y, z | PathLe(x, y) && PathLe(y, z)
      ensures PathLe(x, z)
    {
      PathLeTransitive(x, y, z);
    }
  }

  /** The paths agree before `n`, and there the first has the smaller part. */
  predicate SmallerPart(a: Path, b: Path, n: nat) {
    n < |a| && n < |b| && a[..n] == b[..n] && a[n] != b[n] && StrLe(a[n], b[n])
  }

  /** A path comes before another when it leads to it, or has the smaller part where they first differ. */
  lemma {:induction false} PathLeMeans(a: Path, b: Path)
    ensures PathLe(a, b) <==> a <= b || exists n :: SmallerPart(a, b, n)
  {
    hide StrLe;
    if a != [] && b != [] {
      if a[0] == b[0] {
        PathLeMeans(a[1..], b[1..]);
        assert a == [a[0]] + a[1..] && b == [b[0]] + b[1..];
        if n: nat :| SmallerPart(a[1..], b[1..], n) {
          assert a[..n + 1] == [a[0]] + a[1..][..n] && b[..n + 1] == [b[0]] + b[1..][..n];
          assert SmallerPart(a, b, n + 1);
        }
        if n: nat :| SmallerPart(a, b, n) {
          assert n > 0 && a[1..][..n - 1] == a[..n][1..] && b[1..][..n - 1] == b[..n][1..];
          assert SmallerPart(a[1..], b[1..], n - 1);
        }
      } else {
        assert StrLe(a[0], b[0]) ==> SmallerPart(a, b, 0);
        assert forall n: nat | SmallerPart(a, b, n) :: n == 0 || a[..n][0] == b[..n][0];
      }
    }
  }

  // ---- Frames ----------------------------------------------------------------------------------

  function Power256(width: nat): nat {
    if width == 0 then 1 else 256 * Power256(width - 1)
  }

  /** `n.to_bytes(width, "big")`; it raises for a number that does not fit. */
  function BigEndian(n: nat, width: nat): (s: string)
    ensures |s| == width
  {
    if width == 0 then "" else BigEndian(n / 256, width - 1) + [(n % 256) as char]
  }

  predicate Framable(path: Path, content: string) {
    |Join(path)| < Power256(4) && |content| < Power256(8)
  }

  ghost predicate AllFramable(files: map<Path, string>) {
    forall p | p in files :: Framable(p, files[p])
  }

  function Frame(path: Path, content: string): string {
    BigEndian(|Join(path)|, 4) + Join(path) + BigEndian(|content|, 8) + content
  }

  function Stream(paths: seq<Path>, files: map<Path, string>): string
    requires forall p | p in paths :: p in files
  {
    if paths == [] then ""
    else Stream(paths[..|paths| - 1], files) + Frame(paths[|paths| - 1], files[paths[|paths| - 1]])
  }

  lemma StreamNext(paths: seq<Path>, i: nat, files: map<Path, string>)
    requires i < |paths| && forall p | p in paths :: p in files
    ensures Stream(paths[..i + 1], files) == Stream(paths[..i], files) + Frame(paths[i], files[paths[i]])
  {
    assert paths[..i + 1][..i] == paths[..i];
  }

  datatype Outcome = Digest(value: string) | EmptyInventory | LengthOverflow

  /** `scan` is the order in which the directory walk yields the files of the package. */
  method PackageSha256(files: map<Path, string>, scan: seq<Path>, sha256: string -> string) returns (outcome: Outcome)
    requires multiset(scan) == multiset(files.Keys) && forall p | p in files :: ValidPath(p)
    ensures files == map[] <==> outcome == EmptyInventory
    ensures files != map[] ==>
      if AllFramable(files) then outcome == Digest(sha256(PackageStream(files, scan)))
      else outcome == LengthOverflow
  {
    ScanMembers(files, scan);
    var paths := Sort(scan, PathLe);
    if paths == [] {
      assert forall p | p in files :: p in paths;
      return EmptyInventory;
    }
    assert paths[0] in files;
    var fits, accumulated := Accumulate(paths, files);
    assert (forall p | p in paths :: Framable(p, files[p])) <==> AllFramable(files);
    outcome := if fits then Digest(sha256(accumulated)) else LengthOverflow;
  }

  /** The loop of `package_sha256` over the sorted files. */
  method Accumulate(paths: seq<Path>, files: map<Path, string>) returns (fits: bool, accumulated: string)
    requires forall p | p in paths :: p in files
    ensures fits <==> forall p | p in paths :: Framable(p, files[p])
    ensures fits ==> accumulated == Stream(paths, files)
  {
    accumulated := "";
    for i := 0 to |paths|
      invariant accumulated == Stream(paths[..i], files)
      invariant forall j | 0 <= j < i :: Framable(paths[j], files[paths[j]])
    {
      fits, accumulated := FrameFile(paths[i], files[paths[i]], accumulated);
      if !fits {
        return;
      }
      StreamNext(paths, i, files);
    }
    assert paths[..|paths|] == paths;
    fits := true;
  }

  /** The four updates of the digest for one file. */
  method FrameFile(path: Path, content: string, accumulated: string) returns (fits: bool, framed: string)
    ensures fits <==> Framable(path, content)
    ensures fits ==> framed == accumulated + Frame(path, content)
  {
    var relative := Join(path);
    framed := accumulated;
    fits := |relative| < Power256(4) && |content| < Power256(8);
    if fits {
      framed := framed + BigEndian(|relative|, 4);
      framed := framed + relative;
      framed := framed + BigEndian(|content|, 8);
      framed := framed + content;
      Regroup3(accumulated, BigEndian(|relative|, 4), relative, BigEndian(|content|, 8) + content);
      Regroup(accumulated + BigEndian(|relative|, 4) + relative, BigEndian(|content|, 8), content);
      Regroup(BigEndian(|relative|, 4), relative, BigEndian(|content|, 8) + content);
      Regroup(BigEndian(|relative|, 4) + relative, BigEndian(|content|, 8), content);
    }
  }

  /** The bytes hashed for a package. */
  ghost function PackageStream(files: map<Path, string>, scan: seq<Path>): string
    requires multiset(scan) == multiset(files.Keys) && forall p | p in files :: ValidPath(p)
  {
    ScanMembers(files, scan);
    Stream(Sort(scan, PathLe), files)
  }

  lemma ScanMembers(files: map<Path, string>, scan: seq<Path>)
    requires multiset(scan) == multiset(files.Keys)
    ensures forall p :: p in Sort(scan, PathLe) <==> p in files
  {
    PathLeIsTotalOrder();
    SortSorts(scan, PathLe);
    forall p
      ensures p in Sort(scan, PathLe) <==> p in files
    {
      assert p in Sort(scan, PathLe) <==> p in multiset(Sort(scan, PathLe));
      assert p in files.Keys <==> p in multiset(files.Keys);
    }
  }

  // ---- Unique decoding -------------------------------------------------------------------------

  lemma {:induction false} BigEndianInjective(m: nat, n: nat, width: nat)
    requires m < Power256(width) && n < Power256(width) && BigEndian(m, width) == BigEndian(n, width)
    ensures m == n
  {
    if width > 0 {
      var c, d := (m % 256) as char, (n % 256) as char;
      Cut(BigEndian(m / 256, width - 1), BigEndian(n / 256, width - 1), [c], [d]);
      assert c == [c][0] == [d][0] == d;
      BigEndianInjective(m / 256, n / 256, width - 1);
    }
  }

  /** The number whose digits to the base 256 are the bytes, the most significant first. */
  function Value(bytes: string): nat {
    if bytes == "" then 0 else (bytes[0] as nat) * Power256(|bytes| - 1) + Value(bytes[1..])
  }

  lemma {:induction false} ValueNext(bytes: string, c: char)
    ensures Value(bytes + [c]) == 256 * Value(bytes) + c as nat
  {
    if bytes == "" {
      assert [c][1..] == "" && Value("") == 0 && Power256(0) == 1;
      assert "" + [c] == [c] && Value([c]) == (c as nat) * 1 + 0;
    } else {
      var d, k := bytes[0] as nat, Power256(|bytes| - 1);
      ValueNext(bytes[1..], c);
      assert (bytes + [c])[1..] == bytes[1..] + [c];
      assert Power256(|bytes|) == 256 * k;
      assert d * (256 * k) == 256 * (d * k);
    }
  }

  lemma {:induction false} BigEndianValue(n: nat, width: nat)
    requires n < Power256(width)
    ensures Value(BigEndian(n, width)) == n
  {
    if width > 0 {
      BigEndianValue(n / 256, width - 1);
      ValueNext(BigEndian(n / 256, width - 1), (n % 256) as char);
    }
  }

  /** Paths up to four gibibytes and contents up to sixteen exbibytes can be framed. */
  lemma FramableMeans(path: Path, content: string)
    ensures Framable(path, content) <==> |Join(path)| < 0x1_0000_0000 && |content| < 0x1_0000_0000_0000_0000
  {
    assert Power256(4) == 256 * Power256(3) && Power256(3) == 256 * Power256(2) && Power256(2) == 256 * Power256(1);
    assert Power256(8) == 256 * Power256(7) && Power256(7) == 256 * Power256(6) && Power256(6) == 256 * Power256(5);
    assert Power256(5) == 256 * Power256(4) && Power256(1) == 256 * Power256(0);
  }

  /** A frame: four bytes that say how long the path is, the path, eight that say how long the content is, the
      content. */
  lemma FrameLayout(path: Path, content: string)
    requires Framable(path, content)
    ensures var frame, n := Frame(path, content), |Join(path)|;
            && |frame| == 4 + n + 8 + |content|
            && Value(frame[..4]) == n && frame[4..4 + n] == Join(path)
            && Value(frame[4 + n..12 + n]) == |content| && frame[12 + n..] == content
  {
    var n := |Join(path)|;
    var frame, l, m := Frame(path, content), BigEndian(n, 4), BigEndian(|content|, 8);
    BigEndianValue(n, 4);
    BigEndianValue(|content|, 8);
    assert frame[..4] == l && frame[4 + n..12 + n] == m;
  }

  /** A length-prefixed text at the end of a stream, whatever follows it. */
  lemma PrefixedText(s: string, t: string, width: nat, x: string, y: string)
    requires |s| < Power256(width) && |t| < Power256(width)
    requires BigEndian(|s|, width) + (s + x) == BigEndian(|t|, width) + (t + y)
    ensures s == t && x == y
  {
    Cut(BigEndian(|s|, width), BigEndian(|t|, width), s + x, t + y);
    BigEndianInjective(|s|, |t|, width);
    Cut(s, t, x, y);
  }

  lemma FramePrefix(p: Path, q: Path, c: string, d: string, x: string, y: string)
    requires ValidPath(p) && ValidPath(q) && Framable(p, c) && Framable(q, d)
    requires Frame(p, c) + x == Frame(q, d) + y
    ensures p == q && c == d && x == y
  {
    FrameTail(p, c, x);
    FrameTail(q, d, y);
    PrefixedText(Join(p), Join(q), 4, BigEndian(|c|, 8) + (c + x), BigEndian(|d|, 8) + (d + y));
    PrefixedText(c, d, 8, x, y);
    JoinSplit(p);
    JoinSplit(q);
  }

  lemma FrameTail(p: Path, c: string, x: string)
    ensures Frame(p, c) + x == BigEndian(|Join(p)|, 4) + (Join(p) + (BigEndian(|c|, 8) + (c + x)))
  {
    Regroup3(BigEndian(|Join(p)|, 4) + Join(p), BigEndian(|c|, 8), c, x);
    Regroup(BigEndian(|Join(p)|, 4), Join(p), BigEndian(|c|, 8) + (c + x));
  }

  ghost predicate Streamable(paths: seq<Path>, files: map<Path, string>) {
    forall p | p in paths :: p in files && ValidPath(p) && Framable(p, files[p])
  }

  /** Streams are read back from the front: the first frame, and the stream of the rest. */
  lemma {:induction false} StreamFront(paths: seq<Path>, files: map<Path, string>)
    requires Streamable(paths, files) && paths != []
    ensures Stream(paths, files) == Frame(paths[0], files[paths[0]]) + Stream(paths[1..], files)
    decreases |paths|
  {
    hide Frame;
    var n := |paths| - 1;
    var f := Frame(paths[0], files[paths[0]]);
    if n == 0 {
      assert Stream(paths, files) == "" + f;
    } else {
      StreamFront(paths[..n], files);
      assert paths[..n][1..] == paths[1..][..n - 1];
      Regroup(f, Stream(paths[1..][..n - 1], files), Frame(paths[n], files[paths[n]]));
    }
  }

  lemma {:induction false} StreamDecodes(s: seq<Path>, files: map<Path, string>, t: seq<Path>, other: map<Path, string>)
    requires Streamable(s, files) && Streamable(t, other) && Stream(s, files) == Stream(t, other)
    ensures s == t && forall p | p in s :: files[p] == other[p]
    decreases |s|
  {
    if s != [] && t != [] {
      StreamFront(s, files);
      StreamFront(t, other);
      assert s[0] in s && t[0] in t;
      FramePrefix(s[0], t[0], files[s[0]], other[t[0]], Stream(s[1..], files), Stream(t[1..], other));
      StreamDecodes(s[1..], files, t[1..], other);
      assert s == [s[0]] + s[1..] && t == [t[0]] + t[1..];
    } else if s != [] {
      StreamFront(s, files);
    } else if t != [] {
      StreamFront(t, other);
    }
  }

  /** Two packages give the same stream exactly when they hold the same files with the same contents, in whatever
      order their directories are walked. */
  lemma StreamDecides(files: map<Path, string>, scan: seq<Path>, other: map<Path, string>, rescan: seq<Path>)
    requires multiset(scan) == multiset(files.Keys) && multiset(rescan) == multiset(other.Keys)
    requires AllFramable(files) && forall p | p in files :: ValidPath(p)
    requires AllFramable(other) && forall p | p in other :: ValidPath(p)
    ensures PackageStream(files, scan) == PackageStream(other, rescan) <==> files == other
  {
    ScanMembers(files, scan);
    ScanMembers(other, rescan);
    if files == other {
      PathLeIsTotalOrder();
      SortIsCanonical(scan, rescan, PathLe);
    }
    if PackageStream(files, scan) == PackageStream(other, rescan) {
      StreamDecodes(Sort(scan, PathLe), files, Sort(rescan, PathLe), other);
      assert forall p :: p in files.Keys <==> p in other.Keys;
      assert files.Keys == other.Keys;
      assert files == other;
    }
  }
}
