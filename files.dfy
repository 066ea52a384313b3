/**
 * The files the capture scripts create in their output directory: a path is
 * the directory and a file name, rendered by `str(path)` with the Windows
 * separator the configured output directory uses; a file is missing or
 * present with a size.
 */
module Files {

  datatype Path = Path(dir: string, name: string)

  /** `str(outdir / name)`. */
  function Text(p: Path): (t: string)
    ensures |t| == |p.dir| + 1 + |p.name|
  {
    p.dir + "\\" + p.name
  }

  /** Two files of one directory render to the same text only when their names agree. */
  lemma TextInjective(dir: string, a: string, b: string)
    ensures Text(Path(dir, a)) == Text(Path(dir, b)) <==> a == b
  {
    if Text(Path(dir, a)) == Text(Path(dir, b)) {
      assert |a| == |b|;
      forall k | 0 <= k < |a| ensures a[k] == b[k] {
        assert Text(Path(dir, a))[|dir| + 1 + k] == a[k];
        assert Text(Path(dir, b))[|dir| + 1 + k] == b[k];
      }
    }
  }

  datatype FileState = Missing | Present(size: nat)

  /** `p.exists()` and a non-zero `p.stat().st_size`: the sanity check both scripts run on a temporary. */
  predicate HasData(f: FileState) {
    f.Present? && f.size > 0
  }
}
