/**
 * The download directory and the part of `glob.glob` the bot relies on.
 *
 * A directory is seen as a listing: the names of its entries in the order
 * `glob` yields them. The patterns the bot builds have the shape
 * `downloads/<prefix>*<suffix>`, so a name matches when it starts with the
 * prefix, ends with the suffix, and the two do not overlap. Taking `files[0]`
 * of a filtered glob result is taking the first name of the listing that
 * passes every filter.
 */
module Listing {
  import opened Wrappers
  import opened Text

  /** `DOWNLOAD_DIR`. */
  const DownloadDir: string := "downloads"

  /** `os.path.join(DOWNLOAD_DIR, name)` on a POSIX system. */
  function Join(name: string): string {
    DownloadDir + "/" + name
  }

  /** `fnmatch` of `name` against `<prefix>*<suffix>` when neither part holds a wildcard. */
  predicate GlobMatch(name: string, prefix: string, suffix: string) {
    |prefix| + |suffix| <= |name| && StartsWith(name, prefix) && EndsWith(name, suffix)
  }

  /**
   * The glob `<prefix>*<suffix>`: the name is the prefix, then any middle
   * part (possibly empty), then the suffix.
   */
  lemma GlobMatchStar(name: string, prefix: string, suffix: string)
    ensures GlobMatch(name, prefix, suffix) <==> exists mid :: name == prefix + mid + suffix
  {
    if GlobMatch(name, prefix, suffix) {
      var mid := name[|prefix|..|name| - |suffix|];
      assert name == prefix + mid + suffix by {
        assert name == name[..|prefix|] + mid + name[|name| - |suffix|..];
      }
    }
    if exists mid :: name == prefix + mid + suffix {
      var mid :| name == prefix + mid + suffix;
      assert name[..|prefix|] == prefix;
      assert name[|name| - |suffix|..] == suffix;
    }
  }

  /**
   * A path returned by a downloader is used when it is truthy (not `None`,
   * not empty) and `os.path.exists` holds of it.
   */
  predicate Usable(p: Option<string>, fs: set<string>)
    ensures Usable(p, fs) ==> p.Some? && |p.value| > 0 && p.value in fs
  {
    p.Some? && p.value != "" && p.value in fs
  }

  /** Index `i` holds the first element of `xs` that satisfies `p`. */
  predicate FirstWhere<T>(xs: seq<T>, p: T -> bool, i: int) {
    0 <= i < |xs| && p(xs[i]) && forall j :: 0 <= j < i ==> !p(xs[j])
  }

  /** The position of the first element satisfying `p`, if any. */
  function FirstIndex<T>(xs: seq<T>, p: T -> bool): (r: Option<nat>)
    ensures r.Some? ==> FirstWhere(xs, p, r.value)
    ensures r.None? <==> forall j :: 0 <= j < |xs| ==> !p(xs[j])
  {
    if |xs| == 0 then None
    else if p(xs[0]) then Some(0)
    else match FirstIndex(xs[1..], p)
      case None => None
      case Some(k) => Some(k + 1)
  }

  /** At most one index is the first one satisfying `p`. */
  lemma FirstWhereUnique<T>(xs: seq<T>, p: T -> bool, i: int, j: int)
    requires FirstWhere(xs, p, i) && FirstWhere(xs, p, j)
    ensures i == j
  {
  }
}
