/** File names of the recorder's output: the timestamp string with its
    colons replaced, and the per-market file paths under the L2 folder. */
module Naming {

  /** `s.replace(":", "-")`: every colon becomes a dash, nothing else moves. */
  function Dashed(s: string): (r: string)
    ensures |r| == |s|
    ensures forall i :: 0 <= i < |s| ==> r[i] == (if s[i] == ':' then '-' else s[i])
    ensures ':' !in r
  {
    if s == [] then []
    else [if s[0] == ':' then '-' else s[0]] + Dashed(s[1..])
  }

  /** Replacing twice is replacing once. */
  lemma DashedIdempotent(s: string)
    ensures Dashed(Dashed(s)) == Dashed(s)
  {
    var d := Dashed(s);
    assert forall i :: 0 <= i < |d| ==> Dashed(d)[i] == d[i];
  }

  /** A string is left alone exactly when it holds no colon. */
  lemma DashedFixed(s: string)
    ensures Dashed(s) == s <==> ':' !in s
  {
    if ':' in s {
      var i :| 0 <= i < |s| && s[i] == ':';
      assert Dashed(s)[i] == '-';
    } else {
      assert forall i :: 0 <= i < |s| ==> Dashed(s)[i] == s[i];
    }
  }

  const UpdateSuffix: string := "_update.json"
  const TradesSuffix: string := "_trades.json"
  const SnapshotSuffix: string := "_snapshot.json"

  /** `{L2folder}/{symbol}/{stamp}{suffix}`. */
  function FilePath(folder: string, symbol: string, stamp: string, suffix: string): string {
    folder + "/" + symbol + "/" + stamp + suffix
  }

  /** Two paths built with the same folder and suffix coincide only when
      their markets and stamps do, as long as no market name holds a
      slash: the first slash after the folder ends the market. */
  lemma FilePathInjective(folder: string, s1: string, x1: string, s2: string, x2: string, suffix: string)
    requires '/' !in s1 && '/' !in s2
    requires FilePath(folder, s1, x1, suffix) == FilePath(folder, s2, x2, suffix)
    ensures s1 == s2 && x1 == x2
  {
    var p := FilePath(folder, s1, x1, suffix);
    var n := |folder| + 1;
    assert forall j :: 0 <= j < |s1| ==> p[n + j] == s1[j];
    assert forall j :: 0 <= j < |s2| ==> p[n + j] == s2[j];
    assert p[n + |s1|] == '/' && p[n + |s2|] == '/';
    assert |s1| == |s2|;
    assert s1 == p[n..n + |s1|] == s2;
    var q := folder + "/" + s1 + "/";
    assert p == q + (x1 + suffix) == q + (x2 + suffix);
    EndsWith(q, x1 + suffix);
    EndsWith(q, x2 + suffix);
    assert x1 == (x1 + suffix)[..|x1|];
  }

  lemma EndsWith(prefix: string, suffix: string)
    ensures (prefix + suffix)[|prefix|..] == suffix
  {
  }

  /** Update, trades and snapshot files never share a path, whatever the
      folder, market and stamps: their suffixes keep them apart. */
  lemma KindsNeverCollide(f1: string, s1: string, x1: string, f2: string, s2: string, x2: string)
    ensures FilePath(f1, s1, x1, UpdateSuffix) != FilePath(f2, s2, x2, TradesSuffix)
    ensures FilePath(f1, s1, x1, UpdateSuffix) != FilePath(f2, s2, x2, SnapshotSuffix)
    ensures FilePath(f1, s1, x1, TradesSuffix) != FilePath(f2, s2, x2, SnapshotSuffix)
  {
    var d1 := f1 + "/" + s1 + "/" + x1;
    var d2 := f2 + "/" + s2 + "/" + x2;
    EndsWith(d1, UpdateSuffix);
    EndsWith(d1, TradesSuffix);
    EndsWith(d2, TradesSuffix);
    EndsWith(d2, SnapshotSuffix);
    assert (d1 + UpdateSuffix)[|d1|] == (d1 + TradesSuffix)[|d1|] == '_';
    assert (d2 + SnapshotSuffix)[|d2| + 2] == 'n';
  }

  /** With the folder, stamp and suffix fixed, different markets get
      different paths. */
  lemma MarketsNeverCollide(folder: string, s1: string, s2: string, stamp: string, suffix: string)
    requires s1 != s2
    ensures FilePath(folder, s1, stamp, suffix) != FilePath(folder, s2, stamp, suffix)
  {
    var p1, p2 := FilePath(folder, s1, stamp, suffix), FilePath(folder, s2, stamp, suffix);
    var n := |folder| + 1;
    assert p1[n..n + |s1|] == s1;
    assert p2[n..n + |s2|] == s2;
  }
}
