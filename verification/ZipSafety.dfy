/** The archive preflight (`zip_safety.py`): the first fatal violation in a fixed order,
    from declared sizes alone.  Ratios are compared exactly. */
module ZipSafety {
  import opened Wrappers
  import opened Splitting

  datatype ZipInfo = ZipInfo(filename: string, fileSize: nat, compressSize: nat)

  datatype Limits = Limits(
    exemptPrefixes: seq<string>,
    maxEntries: int,
    maxTotalUncompressed: int,
    maxWholeReadPart: int,
    maxCompressionRatio: real)

  datatype Violation =
    | TooManyEntries(entries: nat)
    | SuspiciousName(name: string)
    | PartTooLarge(name: string, fileSize: nat)
    | CompressionRatio(name: string, fileSize: nat, compressSize: nat)
    | TotalTooLarge(totalUncompressed: nat)
    | TotalRatio(totalUncompressed: nat, totalCompressed: nat)

  // ---- names ---------------------------------------------------------------------------------

  predicate StartsWith(s: string, prefix: string) {
    prefix <= s
  }

  predicate EndsWith(s: string, suffix: string) {
    |suffix| <= |s| && s[|s| - |suffix|..] == suffix
  }

  function Slashed(name: string): (r: string)
    ensures |r| == |name|
    ensures forall i :: 0 <= i < |name| ==> r[i] == if name[i] == '\\' then '/' else name[i]
  {
    seq(|name|, i requires 0 <= i < |name| => if name[i] == '\\' then '/' else name[i])
  }

  predicate IsSuspiciousName(name: string) {
    || name == "" || StartsWith(name, "/") || StartsWith(name, "\\")
    || (|name| > 1 && name[1] == ':')
    || ".." in SplitOn(Slashed(name), '/')
  }

  predicate Separator(c: char) {
    c == '/' || c == '\\'
  }

  /** A component climbing to the parent directory starts here. */
  predicate ClimbsAt(name: string, i: nat) {
    && i + 2 <= |name| && name[i] == '.' && name[i + 1] == '.'
    && (i == 0 || Separator(name[i - 1]))
    && (i + 2 == |name| || Separator(name[i + 2]))
  }

  /** Empty, starting with a separator, a colon in second place, or two dots alone between
      separators or the ends. */
  ghost predicate Hazard(name: string) {
    name == "" || Separator(name[0]) || (|name| > 1 && name[1] == ':') || exists i: nat :: ClimbsAt(name, i)
  }

  lemma SuspiciousExactly(name: string)
    ensures IsSuspiciousName(name) <==> Hazard(name)
  {
    var s := Slashed(name);
    PiecesAreStretches(s, '/', "..");
    if i: nat, j: nat :| PieceAt(s, '/', i, j, "..") {
      assert s[i..j][0] == s[i] && s[i..j][1] == s[i + 1];
      assert ClimbsAt(name, i);
    }
    if i: nat :| ClimbsAt(name, i) {
      assert s[i..i + 2] == "..";
      assert PieceAt(s, '/', i, i + 2, "..");
    }
  }

  // ---- one entry -----------------------------------------------------------------------------

  ghost predicate Relationship(name: string) {
    |name| >= 5 && name[|name| - 5..] == ".rels"
  }

  ghost predicate Exempt(name: string, limits: Limits) {
    exists p :: p in limits.exemptPrefixes && |p| <= |name| && name[..|p|] == p
  }

  /** Above the part cap, and a relationship part or in no exempt family. */
  ghost predicate Oversized(info: ZipInfo, limits: Limits) {
    info.fileSize > limits.maxWholeReadPart && (Relationship(info.filename) || !Exempt(info.filename, limits))
  }

  /** Something out of nothing, or more than the cap times what it is stored in. */
  ghost predicate Overinflated(info: ZipInfo, limits: Limits) {
    && info.fileSize > 0
    && (info.compressSize > 0 ==> info.fileSize as real > limits.maxCompressionRatio * info.compressSize as real)
  }

  ghost predicate WithinCaps(info: ZipInfo, limits: Limits) {
    !Hazard(info.filename) && !Oversized(info, limits) && !Overinflated(info, limits)
  }

  /** What an entry is refused for: its name before its size before its ratio. */
  ghost predicate RefusedFor(info: ZipInfo, limits: Limits, v: Violation) {
    match v
    case SuspiciousName(name) => name == info.filename && Hazard(name)
    case PartTooLarge(name, size) =>
      && name == info.filename && size == info.fileSize
      && !Hazard(name) && Oversized(info, limits)
    case CompressionRatio(name, size, compressed) =>
      && name == info.filename && size == info.fileSize && compressed == info.compressSize
      && !Hazard(name) && !Oversized(info, limits) && Overinflated(info, limits)
    case _ => false
  }

  // ---- the archive ---------------------------------------------------------------------------

  function Uncompressed(infos: seq<ZipInfo>): nat {
    if infos == [] then 0 else Uncompressed(infos[..|infos| - 1]) + infos[|infos| - 1].fileSize
  }

  function Compressed(infos: seq<ZipInfo>): nat {
    if infos == [] then 0 else Compressed(infos[..|infos| - 1]) + infos[|infos| - 1].compressSize
  }

  /** The totals are sums: nothing for no entry, an entry's own sizes for one, and additive
      over any cut of the archive. */
  lemma {:induction false} TotalsAreSums(front: seq<ZipInfo>, back: seq<ZipInfo>)
    ensures Uncompressed([]) == Compressed([]) == 0
    ensures |front| == 1 ==> Uncompressed(front) == front[0].fileSize && Compressed(front) == front[0].compressSize
    ensures Uncompressed(front + back) == Uncompressed(front) + Uncompressed(back)
    ensures Compressed(front + back) == Compressed(front) + Compressed(back)
    decreases |back|
  {
    if |front| == 1 {
      assert front[..0] == [];
    }
    if back == [] {
      assert front + back == front;
    } else {
      var all := front + back;
      assert all[..|all| - 1] == front + back[..|back| - 1];
      TotalsAreSums(front, back[..|back| - 1]);
    }
  }

  ghost predicate TotalInflates(infos: seq<ZipInfo>, limits: Limits) {
    && Compressed(infos) > 0
    && Uncompressed(infos) as real > limits.maxCompressionRatio * Compressed(infos) as real
  }

  ghost predicate EntriesPass(infos: seq<ZipInfo>, limits: Limits) {
    forall i :: 0 <= i < |infos| ==> WithinCaps(infos[i], limits)
  }

  ghost predicate AllCapsHold(infos: seq<ZipInfo>, limits: Limits) {
    && |infos| <= limits.maxEntries && EntriesPass(infos, limits)
    && Uncompressed(infos) <= limits.maxTotalUncompressed && !TotalInflates(infos, limits)
  }

  /** The violation is there and every check that comes before it passes. */
  ghost predicate IsFirst(infos: seq<ZipInfo>, limits: Limits, v: Violation) {
    match v
    case TooManyEntries(n) => n == |infos| > limits.maxEntries
    case TotalTooLarge(t) =>
      && |infos| <= limits.maxEntries && EntriesPass(infos, limits)
      && t == Uncompressed(infos) > limits.maxTotalUncompressed
    case TotalRatio(t, c) =>
      && |infos| <= limits.maxEntries && EntriesPass(infos, limits)
      && Uncompressed(infos) <= limits.maxTotalUncompressed
      && t == Uncompressed(infos) && c == Compressed(infos) && TotalInflates(infos, limits)
    case _ =>
      && |infos| <= limits.maxEntries
      && exists i :: 0 <= i < |infos| && RefusedFor(infos[i], limits, v) && EntriesPass(infos[..i], limits)
  }

  method Preflight(infos: seq<ZipInfo>, limits: Limits) returns (r: Option<Violation>)
    ensures r.None? <==> AllCapsHold(infos, limits)
    ensures r.Some? ==> IsFirst(infos, limits, r.value)
  {
    if |infos| > limits.maxEntries {
      return Some(TooManyEntries(|infos|));
    }
    var totalUncompressed, totalCompressed := 0, 0;
    for n := 0 to |infos|
      invariant EntriesPass(infos[..n], limits)
      invariant totalUncompressed == Uncompressed(infos[..n]) && totalCompressed == Compressed(infos[..n])
    {
      var info := infos[n];
      var name := info.filename;
      SuspiciousExactly(name);
      if IsSuspiciousName(name) {
        FirstRefusal(infos, limits, n, SuspiciousName(name));
        return Some(SuspiciousName(name));
      }
      var capped := EndsWith(name, ".rels") || forall p :: p in limits.exemptPrefixes ==> !StartsWith(name, p);
      CappedExactly(name, limits);
      if capped && info.fileSize > limits.maxWholeReadPart {
        FirstRefusal(infos, limits, n, PartTooLarge(name, info.fileSize));
        return Some(PartTooLarge(name, info.fileSize));
      }
      InflatesExactly(info, limits);
      if info.fileSize != 0
         && (info.compressSize == 0 || info.fileSize as real / info.compressSize as real > limits.maxCompressionRatio)
      {
        FirstRefusal(infos, limits, n, CompressionRatio(name, info.fileSize, info.compressSize));
        return Some(CompressionRatio(name, info.fileSize, info.compressSize));
      }
      totalUncompressed := totalUncompressed + info.fileSize;
      totalCompressed := totalCompressed + info.compressSize;
      assert infos[..n + 1][..n] == infos[..n];
    }
    assert infos[..|infos|] == infos;
    if totalUncompressed > limits.maxTotalUncompressed {
      return Some(TotalTooLarge(totalUncompressed));
    }
    TotalInflatesExactly(infos, limits);
    if totalCompressed != 0 && totalUncompressed as real / totalCompressed as real > limits.maxCompressionRatio {
      return Some(TotalRatio(totalUncompressed, totalCompressed));
    }
    return None;
  }

  lemma CappedExactly(name: string, limits: Limits)
    ensures EndsWith(name, ".rels") <==> Relationship(name)
    ensures (forall p :: p in limits.exemptPrefixes ==> !StartsWith(name, p)) <==> !Exempt(name, limits)
  {
    forall p | p in limits.exemptPrefixes
      ensures StartsWith(name, p) <==> |p| <= |name| && name[..|p|] == p
    {}
  }

  lemma RatioAsProduct(size: nat, compressed: nat, ratio: real)
    requires compressed > 0
    ensures size as real / compressed as real > ratio <==> size as real > ratio * compressed as real
  {}

  lemma InflatesExactly(info: ZipInfo, limits: Limits)
    ensures Overinflated(info, limits) <==>
      && info.fileSize != 0
      && (info.compressSize == 0 || info.fileSize as real / info.compressSize as real > limits.maxCompressionRatio)
  {
    if info.compressSize > 0 {
      RatioAsProduct(info.fileSize, info.compressSize, limits.maxCompressionRatio);
    }
  }

  lemma TotalInflatesExactly(infos: seq<ZipInfo>, limits: Limits)
    ensures TotalInflates(infos, limits) <==>
      Compressed(infos) != 0 && Uncompressed(infos) as real / Compressed(infos) as real > limits.maxCompressionRatio
  {
    if Compressed(infos) > 0 {
      RatioAsProduct(Uncompressed(infos), Compressed(infos), limits.maxCompressionRatio);
    }
  }

  lemma FirstRefusal(infos: seq<ZipInfo>, limits: Limits, n: nat, v: Violation)
    requires |infos| <= limits.maxEntries && n < |infos| && EntriesPass(infos[..n], limits)
    requires RefusedFor(infos[n], limits, v)
    ensures IsFirst(infos, limits, v) && !AllCapsHold(infos, limits)
  {
    assert !WithinCaps(infos[n], limits);
  }

  /** There is only one first violation, so the answer is determined. */
  lemma FirstIsUnique(infos: seq<ZipInfo>, limits: Limits, v: Violation, u: Violation)
    requires IsFirst(infos, limits, v) && IsFirst(infos, limits, u)
    ensures v == u
  {
    forall i: nat, j: nat | i < j <= |infos| && EntriesPass(infos[..j], limits) ensures WithinCaps(infos[i], limits) {
      assert infos[..j][i] == infos[i];
    }
  }

  /** An empty entry stored as nothing has nothing but its name to be refused for. */
  lemma EmptyEntryPasses(name: string, limits: Limits)
    requires limits.maxWholeReadPart >= 0
    ensures WithinCaps(ZipInfo(name, 0, 0), limits) <==> !Hazard(name)
  {}

  // ---- the aggregate ratio -------------------------------------------------------------------

  lemma {:induction false} RatiosAddUp(infos: seq<ZipInfo>, limits: Limits)
    requires limits.maxCompressionRatio >= 0.0 && EntriesPass(infos, limits)
    ensures Uncompressed(infos) as real <= limits.maxCompressionRatio * Compressed(infos) as real
  {
    if infos != [] {
      RatiosAddUp(infos[..|infos| - 1], limits);
      assert WithinCaps(infos[|infos| - 1], limits);
    }
  }

  /** The aggregate ratio check can only ever fire for a negative ratio cap: where each
      entry keeps its ratio the sums keep it. */
  lemma TotalRatioFiresExactly(limits: Limits)
    requires limits.maxEntries >= 1 && limits.maxTotalUncompressed >= 0 && limits.maxWholeReadPart >= 0
    ensures (exists infos: seq<ZipInfo>, t: nat, c: nat :: IsFirst(infos, limits, TotalRatio(t, c)))
      <==> limits.maxCompressionRatio < 0.0
  {
    if limits.maxCompressionRatio >= 0.0 {
      forall infos: seq<ZipInfo>, t: nat, c: nat ensures !IsFirst(infos, limits, TotalRatio(t, c)) {
        if IsFirst(infos, limits, TotalRatio(t, c)) {
          RatiosAddUp(infos, limits);
        }
      }
    } else {
      EmptyFile(limits);
    }
  }

  lemma EmptyFile(limits: Limits)
    requires limits.maxEntries >= 1 && limits.maxTotalUncompressed >= 0 && limits.maxWholeReadPart >= 0
    requires limits.maxCompressionRatio < 0.0
    ensures IsFirst([ZipInfo("a", 0, 1)], limits, TotalRatio(0, 1))
  {
    var infos := [ZipInfo("a", 0, 1)];
    TotalsAreSums(infos, []);
  }
}
