/**
 * The document-ingestion pipeline (llamastack/docling-pipeline.py): it downloads the
 * listed PDFs, partitions them round-robin into splits, registers the vector database
 * with its embedding model, and in each worker converts the PDFs, chunks them, embeds the
 * chunks and inserts them into the vector store. The converter, chunker, tokenizer,
 * embedder, uuid generator and store are oracles passed in as values.
 */
module DoclingPipeline {
  import opened Wrappers
  import opened Text
  import opened ModelRegistry

  // ----- import_test_pdfs: the filename list and the download URLs -----

  /** A filename as the list yields it: non-empty, without leading or trailing whitespace. */
  predicate CleanName(f: string) {
    f != [] && IsStripped(f)
  }

  predicate AllClean(names: seq<string>) {
    forall k :: 0 <= k < |names| ==> CleanName(names[k])
  }

  /** `[f.strip() for f in parts]`. */
  function StripAll(parts: seq<string>): (r: seq<string>)
    ensures |r| == |parts| && forall k :: 0 <= k < |parts| ==> r[k] == Strip(parts[k])
  {
    seq(|parts|, k requires 0 <= k < |parts| => Strip(parts[k]))
  }

  /** `[f for f in names if f]`: the non-empty entries in order. */
  function NonEmpty(names: seq<string>): (r: seq<string>)
    ensures |r| <= |names|
  {
    if names == [] then []
    else (if names[0] != [] then [names[0]] else []) + NonEmpty(names[1..])
  }

  /** The filenames of `pdf_filenames`: its comma-separated entries, stripped, blank ones dropped. */
  function ParseFilenames(s: string): seq<string> {
    NonEmpty(StripAll(Split(s, ",")))
  }

  /** Every parsed filename is non-empty and has no leading or trailing whitespace. */
  lemma ParsedNamesAreClean(s: string)
    ensures AllClean(ParseFilenames(s))
  {
    StrippedAreClean(StripAll(Split(s, ",")));
  }

  /** An entry is kept exactly when it is non-empty. */
  lemma {:induction false} NonEmptyMembers(names: seq<string>, x: string)
    ensures x in NonEmpty(names) <==> x in names && x != []
    decreases |names|
  {
    if names != [] {
      NonEmptyMembers(names[1..], x);
      var head := if names[0] != [] then [names[0]] else [];
      assert x in head + NonEmpty(names[1..]) <==> x in head || x in NonEmpty(names[1..]);
      assert names == [names[0]] + names[1..];
    }
  }

  /** The entries of a list without empty strings are all kept. */
  lemma {:induction false} NonEmptyKeeps(names: seq<string>)
    requires forall k :: 0 <= k < |names| ==> names[k] != []
    ensures NonEmpty(names) == names
    decreases |names|
  {
    if names != [] {
      NonEmptyKeeps(names[1..]);
      assert names == [names[0]] + names[1..];
    }
  }

  /** Every non-empty stripped entry is clean, so what `ParseFilenames` keeps is clean. */
  lemma {:induction false} StrippedAreClean(stripped: seq<string>)
    requires forall k :: 0 <= k < |stripped| ==> IsStripped(stripped[k])
    ensures AllClean(NonEmpty(stripped))
    decreases |stripped|
  {
    if stripped != [] {
      StrippedAreClean(stripped[1..]);
      var head := if stripped[0] != [] then [stripped[0]] else [];
      var rest := NonEmpty(stripped[1..]);
      assert AllClean(head);
      forall k | 0 <= k < |head + rest|
        ensures CleanName((head + rest)[k])
      {
        if k >= |head| {
          assert (head + rest)[k] == rest[k - |head|];
        }
      }
    }
  }

  /**
   * A filename is parsed out of the list exactly when it is non-empty and one of the
   * stripped comma-separated entries (`StripAll` says the `k`-th of them is `Strip(parts[k])`).
   */
  lemma ParseFilenamesMembers(s: string, x: string)
    ensures x in ParseFilenames(s) <==> x != [] && x in StripAll(Split(s, ","))
  {
    NonEmptyMembers(StripAll(Split(s, ",")), x);
  }

  /** Splitting a comma-joined list of comma-free entries gives the entries back. */
  lemma {:induction false} SplitJoinCommaFree(names: seq<string>)
    requires forall k :: 0 <= k < |names| ==> ',' !in names[k]
    ensures Split(Join(names, ","), ",") == if names == [] then [""] else names
    decreases |names|
  {
    if names == [] {
    } else if |names| == 1 {
      FoundChar(names[0], ',', 0);
    } else {
      var s := Join(names, ",");
      var i := |names[0]|;
      assert s == names[0] + "," + Join(names[1..], ",");
      assert s[i] == ',';
      forall k | 0 <= k < i
        ensures s[k] != ','
      {
        assert s[k] == names[0][k];
      }
      FirstCharAt(s, ',', 0, i);
      assert s[..i] == names[0];
      assert s[i + 1..] == Join(names[1..], ",");
      SplitJoinCommaFree(names[1..]);
      assert names == [names[0]] + names[1..];
    }
  }

  /**
   * Round trip: writing non-blank, stripped, comma-free filenames as a comma-separated
   * list and parsing it gives the same filenames in the same order.
   */
  lemma ParseFilenamesRoundTrip(names: seq<string>)
    requires forall k :: 0 <= k < |names| ==> CleanName(names[k]) && ',' !in names[k]
    ensures ParseFilenames(Join(names, ",")) == names
  {
    SplitJoinCommaFree(names);
    if names == [] {
      BlankEntriesDropped(Split(Join(names, ","), ","));
    } else {
      StripAllStripped(names);
      NonEmptyKeeps(names);
    }
  }

  /** Entries that are blank once stripped are all dropped. */
  lemma BlankEntriesDropped(parts: seq<string>)
    requires forall k :: 0 <= k < |parts| ==> AllSpace(parts[k])
    ensures NonEmpty(StripAll(parts)) == []
  {
    var r := StripAll(parts);
    forall k | 0 <= k < |r|
      ensures r[k] == []
    {
      StripEmpty(parts[k]);
    }
    NonEmptyDropsEmpties(r);
  }

  lemma {:induction false} NonEmptyDropsEmpties(names: seq<string>)
    requires forall k :: 0 <= k < |names| ==> names[k] == []
    ensures NonEmpty(names) == []
    decreases |names|
  {
    if names != [] {
      NonEmptyDropsEmpties(names[1..]);
    }
  }

  /** Stripping entries that are already stripped changes nothing. */
  lemma StripAllStripped(names: seq<string>)
    requires forall k :: 0 <= k < |names| ==> IsStripped(names[k])
    ensures StripAll(names) == names
  {
    forall k | 0 <= k < |names|
      ensures Strip(names[k]) == names[k]
    {
      StripStripped(names[k]);
    }
  }

  /** `f"{base_url.rstrip('/')}/{filename.lstrip('/')}"`. */
  function DownloadUrl(baseUrl: string, filename: string): string {
    RStripChar(baseUrl, '/') + "/" + LStripChar(filename, '/')
  }

  /** Trailing slashes on the base and leading slashes on the filename do not change the URL. */
  lemma {:induction false} DownloadUrlIgnoresSlashes(baseUrl: string, filename: string, m: nat, n: nat)
    ensures DownloadUrl(baseUrl + Slashes(m), Slashes(n) + filename) == DownloadUrl(baseUrl, filename)
    decreases m + n
  {
    if m > 0 {
      var s := baseUrl + Slashes(m);
      assert s == baseUrl + Slashes(m - 1) + "/";
      assert s[..|s| - 1] == baseUrl + Slashes(m - 1);
      DownloadUrlIgnoresSlashes(baseUrl, filename, m - 1, n);
    } else if n > 0 {
      var t := Slashes(n) + filename;
      assert t[1..] == Slashes(n - 1) + filename;
      assert baseUrl + Slashes(0) == baseUrl;
      DownloadUrlIgnoresSlashes(baseUrl, filename, 0, n - 1);
    } else {
      assert baseUrl + Slashes(0) == baseUrl;
      assert Slashes(0) + filename == filename;
    }
  }

  /** A base without a trailing slash and a filename without a leading slash are joined by one slash. */
  lemma DownloadUrlOfClean(baseUrl: string, filename: string)
    requires baseUrl == [] || baseUrl[|baseUrl| - 1] != '/'
    requires filename == [] || filename[0] != '/'
    ensures DownloadUrl(baseUrl, filename) == baseUrl + "/" + filename
  {
  }

  function Slashes(n: nat): (s: string)
    ensures |s| == n && forall k :: 0 <= k < n ==> s[k] == '/'
  {
    seq(n, _ => '/')
  }

  /** `os.path.join(directory, name)` for POSIX paths. */
  function PathJoin(directory: string, name: string): (path: string)
    ensures |name| > 0 && name[0] == '/' ==> path == name
    ensures (name == [] || name[0] != '/') ==> EndsWith(path, name)
  {
    if |name| > 0 && name[0] == '/' then name
    else if directory == [] || directory[|directory| - 1] == '/' then directory + name
    else
      assert (directory + "/" + name)[|directory| + 1..] == name;
      directory + "/" + name
  }

  /** One download attempt: the filename, the URL fetched and the file it is written to. */
  datatype Download = Download(filename: string, url: string, path: string)

  function DownloadOf(baseUrl: string, outputPath: string, filename: string): Download {
    Download(filename, DownloadUrl(baseUrl, filename), PathJoin(outputPath, filename))
  }

  /** The download attempted for each filename, in list order. */
  function Attempts(names: seq<string>, baseUrl: string, outputPath: string): (ds: seq<Download>)
    ensures |ds| == |names|
  {
    if names == [] then []
    else Attempts(names[..|names| - 1], baseUrl, outputPath) + [DownloadOf(baseUrl, outputPath, names[|names| - 1])]
  }

  /** The `k`-th attempt fetches and writes the `k`-th filename. */
  lemma {:induction false} AttemptAt(names: seq<string>, baseUrl: string, outputPath: string, k: nat)
    requires k < |names|
    ensures Attempts(names, baseUrl, outputPath)[k] == DownloadOf(baseUrl, outputPath, names[k])
    decreases |names|
  {
    var prefix := names[..|names| - 1];
    if k < |prefix| {
      AttemptAt(prefix, baseUrl, outputPath, k);
      assert prefix[k] == names[k];
    }
  }

  /** The attempts whose fetch succeeds, in order; a failed fetch is skipped. */
  function Succeeded(ds: seq<Download>, fetched: string -> bool): (w: seq<Download>)
    ensures |w| <= |ds|
  {
    if ds == [] then []
    else
      var last := ds[|ds| - 1];
      Succeeded(ds[..|ds| - 1], fetched) + (if fetched(last.url) then [last] else [])
  }

  /**
   * `import_test_pdfs`: parse the list, then fetch each filename in turn; `fetched(url)`
   * says whether the GET of `url` succeeds. The method reports every download it attempted
   * and every one it wrote.
   */
  method ImportTestPdfs(baseUrl: string, pdfFilenames: string, outputPath: string, fetched: string -> bool)
    returns (attempted: seq<Download>, written: seq<Download>)
    ensures attempted == Attempts(ParseFilenames(pdfFilenames), baseUrl, outputPath)
    ensures written == Succeeded(attempted, fetched)
  {
    var names := ParseFilenames(pdfFilenames);
    attempted, written := DownloadAll(names, baseUrl, outputPath, fetched);
  }

  /** The download loop: a `RequestException` is logged and the loop goes on with the next filename. */
  method DownloadAll(names: seq<string>, baseUrl: string, outputPath: string, fetched: string -> bool)
    returns (attempted: seq<Download>, written: seq<Download>)
    ensures attempted == Attempts(names, baseUrl, outputPath)
    ensures written == Succeeded(attempted, fetched)
  {
    attempted, written := [], [];
    for i := 0 to |names|
      invariant attempted == Attempts(names[..i], baseUrl, outputPath)
      invariant written == Succeeded(attempted, fetched)
    {
      var d := DownloadOf(baseUrl, outputPath, names[i]);
      assert names[..i + 1][..i] == names[..i];
      attempted := attempted + [d];
      assert attempted[..i] == Attempts(names[..i], baseUrl, outputPath);
      if fetched(d.url) {
        written := written + [d];
      }
    }
    assert names[..|names|] == names;
  }

  /** An attempt is written exactly when its own fetch succeeds, whatever happened to the others. */
  lemma {:induction false} SucceededExactly(ds: seq<Download>, fetched: string -> bool, k: nat)
    requires k < |ds|
    ensures fetched(ds[k].url) <==> ds[k] in Succeeded(ds, fetched)
    decreases |ds|
  {
    var prefix := ds[..|ds| - 1];
    var last := ds[|ds| - 1];
    var w := Succeeded(prefix, fetched);
    var tail := if fetched(last.url) then [last] else [];
    assert ds[k] in w + tail <==> ds[k] in w || ds[k] in tail;
    if k < |ds| - 1 {
      assert prefix[k] == ds[k];
      SucceededExactly(prefix, fetched, k);
    } else if ds[k] in w {
      SucceededOnlyFetched(prefix, fetched, ds[k]);
    }
  }

  lemma {:induction false} SucceededOnlyFetched(ds: seq<Download>, fetched: string -> bool, d: Download)
    requires d in Succeeded(ds, fetched)
    ensures fetched(d.url)
    decreases |ds|
  {
    var prefix := ds[..|ds| - 1];
    var last := ds[|ds| - 1];
    var tail := if fetched(last.url) then [last] else [];
    assert d in Succeeded(prefix, fetched) + tail;
    if d in Succeeded(prefix, fetched) {
      SucceededOnlyFetched(prefix, fetched, d);
    }
  }

  // ----- create_pdf_splits: discovery and the round-robin partition -----

  /** `[x for x in xs if keep(x)]`. */
  function Filter<T>(xs: seq<T>, keep: T -> bool): (r: seq<T>)
    ensures |r| <= |xs|
  {
    if xs == [] then []
    else Filter(xs[..|xs| - 1], keep) + (if keep(xs[|xs| - 1]) then [xs[|xs| - 1]] else [])
  }

  lemma {:induction false} FilterMembers<T>(xs: seq<T>, keep: T -> bool, x: T)
    ensures x in Filter(xs, keep) <==> x in xs && keep(x)
    decreases |xs|
  {
    if xs != [] {
      var prefix := xs[..|xs| - 1];
      var last := xs[|xs| - 1];
      var tail := if keep(last) then [last] else [];
      FilterMembers(prefix, keep, x);
      assert x in Filter(prefix, keep) + tail <==> x in Filter(prefix, keep) || x in tail;
      assert xs == prefix + [last];
    }
  }

  /** A filter that keeps every entry returns the list unchanged. */
  lemma {:induction false} FilterAll<T>(xs: seq<T>, keep: T -> bool)
    requires forall k :: 0 <= k < |xs| ==> keep(xs[k])
    ensures Filter(xs, keep) == xs
    decreases |xs|
  {
    if xs != [] {
      FilterAll(xs[..|xs| - 1], keep);
      assert xs[..|xs| - 1] + [xs[|xs| - 1]] == xs;
    }
  }

  /** `Path.name`: the text after the last '/'. */
  function BaseName(p: string): (name: string)
    ensures |name| <= |p| && name == p[|p| - |name|..]
  {
    if p == [] || p[|p| - 1] == '/' then []
    else
      var name := BaseName(p[..|p| - 1]) + [p[|p| - 1]];
      assert p[..|p| - 1][|p| - |name|..] + [p[|p| - 1]] == p[|p| - |name|..];
      name
  }

  /** A path without a '/' is its own base name. */
  lemma {:induction false} BaseNameNoSlash(p: string)
    requires '/' !in p
    ensures BaseName(p) == p
  {
    if p != [] {
      BaseNameNoSlash(p[..|p| - 1]);
      assert p[..|p| - 1] + [p[|p| - 1]] == p;
    }
  }

  /** `name.rfind('.')`, with `None` for -1. */
  function LastDot(name: string): (r: Option<nat>)
    ensures r.Some? ==> r.value < |name| && name[r.value] == '.'
    ensures r.Some? ==> forall k :: r.value < k < |name| ==> name[k] != '.'
    ensures r.None? ==> forall k :: 0 <= k < |name| ==> name[k] != '.'
  {
    if name == [] then None
    else if name[|name| - 1] == '.' then Some(|name| - 1)
    else LastDot(name[..|name| - 1])
  }

  /** `PurePath.suffix` of a name: from its last '.', unless that dot leads or ends the name. */
  function Suffix(name: string): string {
    match LastDot(name)
    case Some(i) => if 0 < i < |name| - 1 then name[i..] else ""
    case None => ""
  }

  /** `path.suffix.lower() == ".pdf"`, the test discovery applies to each listed path. */
  predicate IsPdfPath(p: string) {
    LowerAscii(Suffix(BaseName(p))) == ".pdf"
  }

  /** A name passes the suffix test exactly when it ends in ".pdf" in any letter case after at least one character. */
  lemma PdfSuffix(name: string)
    ensures LowerAscii(Suffix(name)) == ".pdf" <==> |name| >= 5 && LowerAscii(name[|name| - 4..]) == ".pdf"
  {
    var n := |name|;
    if LowerAscii(Suffix(name)) == ".pdf" {
      var i := LastDot(name).value;
      assert |Suffix(name)| == 4;
      assert i == n - 4;
    }
    if n >= 5 && LowerAscii(name[n - 4..]) == ".pdf" {
      var t := name[n - 4..];
      var l := LowerAscii(t);
      assert l[0] == LowerChar(t[0]) && l[1] == LowerChar(t[1]) && l[2] == LowerChar(t[2]) && l[3] == LowerChar(t[3]);
      assert l[0] == '.' && l[1] == 'p' && l[2] == 'd' && l[3] == 'f';
      assert name[n - 4] == '.';
      assert name[n - 3] != '.' && name[n - 2] != '.' && name[n - 1] != '.';
      var r := LastDot(name);
      assert r.Some? && r.value >= n - 4;
      assert r.value == n - 4;
    }
  }

  /** `pathlib.Path(input_path).rglob("*")` filtered by the suffix test: the discovered PDFs in listing order. */
  function DiscoveredPdfs(listing: seq<string>): seq<string> {
    Filter(listing, IsPdfPath)
  }

  /** `all_pdfs[i::k]`: the entries at `i`, `i + k`, `i + 2k`, ... */
  function Stride<T>(xs: seq<T>, i: nat, k: nat): seq<T>
    requires k >= 1
    decreases |xs| - i
  {
    if i >= |xs| then [] else [xs[i]] + Stride(xs, i + k, k)
  }

  /** The batches of `range(n)` from `i` on, dropping the empty ones. */
  function Batches<T>(xs: seq<T>, n: int, i: nat): seq<seq<T>>
    decreases n - i
  {
    if i as int >= n then []
    else
      var b := Stride(xs, i, n as nat);
      (if b != [] then [b] else []) + Batches(xs, n, i + 1)
  }

  /** `splits or [[]]` over the round-robin batches of `all_pdfs`. */
  function RoundRobin<T>(xs: seq<T>, numSplits: int): (splits: seq<seq<T>>)
    ensures |splits| >= 1
  {
    var s := Batches(xs, numSplits, 0);
    if s == [] then [[]] else s
  }

  /** `create_pdf_splits`: discover the PDFs of the listing and partition them. */
  function CreatePdfSplits(listing: seq<string>, numSplits: int): seq<seq<string>> {
    RoundRobin(DiscoveredPdfs(listing), numSplits)
  }

  /** The `j`-th entry of `xs[i::k]` is `xs[i + j*k]`, and the slice reaches every such index. */
  lemma {:induction false} StrideIndex<T>(xs: seq<T>, i: nat, k: nat, j: nat)
    requires k >= 1
    ensures j < |Stride(xs, i, k)| <==> i + j * k < |xs|
    ensures j < |Stride(xs, i, k)| ==> Stride(xs, i, k)[j] == xs[i + j * k]
    decreases |xs| - i
  {
    assert j * k >= 0;
    if i < |xs| && j > 0 {
      StrideIndex(xs, i + k, k, j - 1);
      assert (i + k) + (j - 1) * k == i + j * k;
    }
  }

  function Min(a: int, b: int): int {
    if a <= b then a else b
  }

  /** Only the slices that start inside the list are non-empty, so the batches are the first `min(N, n)` slices. */
  lemma {:induction false} BatchesAreStrides<T>(xs: seq<T>, n: int, i: nat)
    requires n >= 1 && i <= n
    ensures var b := Batches(xs, n, i); var m := Min(|xs|, n);
      && |b| == (if i < m then m - i else 0)
      && forall j :: 0 <= j < |b| ==> b[j] == Stride(xs, i + j, n)
    decreases n - i
  {
    if i < n {
      BatchesAreStrides(xs, n, i + 1);
      var rest := Batches(xs, n, i + 1);
      if i < |xs| {
        var b := Batches(xs, n, i);
        assert b == [Stride(xs, i, n)] + rest;
        forall j | 0 < j < |b|
          ensures b[j] == Stride(xs, i + j, n)
        {
          assert b[j] == rest[j - 1];
        }
      }
    }
  }

  /**
   * The shape of the splits: for `num_splits >= 1` and a non-empty list there are exactly
   * `min(N, num_splits)` splits and split `i` is `all_pdfs[i::num_splits]`; otherwise the
   * result is a single empty split.
   */
  lemma RoundRobinShape<T>(xs: seq<T>, numSplits: int)
    ensures var s := RoundRobin(xs, numSplits);
      && (numSplits >= 1 && |xs| >= 1 ==>
            |s| == Min(|xs|, numSplits) && forall i :: 0 <= i < |s| ==> s[i] == Stride(xs, i, numSplits))
      && (numSplits < 1 || |xs| == 0 ==> s == [[]])
  {
    if numSplits >= 1 {
      BatchesAreStrides(xs, numSplits, 0);
    }
  }

  /** Entry `p` of the list is entry `p / k` of split `p % k`: every PDF lands in exactly the split round-robin assigns it. */
  lemma RoundRobinPosition<T>(xs: seq<T>, k: int, p: nat)
    requires k >= 1 && p < |xs|
    ensures var s := RoundRobin(xs, k);
      p % k < |s| && p / k < |s[p % k]| && s[p % k][p / k] == xs[p]
  {
    RoundRobinShape(xs, k);
    var i := p % k;
    var j := p / k;
    assert i + j * k == p;
    StrideIndex(xs, i, k, j);
  }

  /** The splits concatenated in order. */
  function Flatten<T>(ss: seq<seq<T>>): seq<T> {
    if ss == [] then [] else ss[0] + Flatten(ss[1..])
  }

  /** `xs[i::k] + xs[i+1::k] + ... + xs[k-1::k]`. */
  function StridesFrom<T>(xs: seq<T>, k: nat, i: nat): seq<T>
    requires k >= 1
    decreases k - i
  {
    if i >= k then [] else Stride(xs, i, k) + StridesFrom(xs, k, i + 1)
  }

  /** Dropping the empty batches does not change the concatenation. */
  lemma {:induction false} BatchesFlatten<T>(xs: seq<T>, n: int, i: nat)
    requires n >= 1
    ensures Flatten(Batches(xs, n, i)) == StridesFrom(xs, n as nat, i)
    decreases n - i
  {
    if i < n {
      BatchesFlatten(xs, n, i + 1);
      var b := Stride(xs, i, n as nat);
      var rest := Batches(xs, n, i + 1);
      if b != [] {
        assert ([b] + rest)[1..] == rest;
      } else {
        assert [] + rest == rest;
      }
    }
  }

  /** Past the first `k` entries, a slice continues as the same slice of `xs[k..]`. */
  lemma {:induction false} StrideShift<T>(xs: seq<T>, i: nat, k: nat)
    requires 1 <= k <= |xs|
    ensures Stride(xs, i + k, k) == Stride(xs[k..], i, k)
    decreases |xs| - i
  {
    var ys := xs[k..];
    if i + k < |xs| {
      StrideShift(xs, i + k, k);
      assert Stride(ys, i, k) == [ys[i]] + Stride(ys, i + k, k);
      assert ys[i] == xs[i + k];
    } else {
      assert i >= |ys|;
    }
  }

  /** With at most `k` entries each slice holds at most one, so the slices concatenate to the list itself. */
  lemma {:induction false} StridesShort<T>(xs: seq<T>, k: nat, i: nat)
    requires 1 <= k && |xs| <= k && i <= k
    ensures StridesFrom(xs, k, i) == if i < |xs| then xs[i..] else []
    decreases k - i
  {
    if i < k {
      StridesShort(xs, k, i + 1);
      var rest := StridesFrom(xs, k, i + 1);
      if i < |xs| {
        StrideSingle(xs, i, k);
        if i + 1 < |xs| {
          assert rest == xs[i + 1..];
          assert xs[i..] == [xs[i]] + xs[i + 1..];
        } else {
          assert rest == [];
          assert xs[i..] == [xs[i]];
        }
      } else {
        assert Stride(xs, i, k) == [];
        assert rest == [];
      }
    }
  }

  /** A slice starting within the last `k` entries holds just its first entry. */
  lemma StrideSingle<T>(xs: seq<T>, i: nat, k: nat)
    requires 1 <= k && i < |xs| <= i + k
    ensures Stride(xs, i, k) == [xs[i]]
  {
    assert Stride(xs, i + k, k) == [];
  }

  lemma PeelStep<T>(x: T, there: seq<T>, restX: seq<T>, mid: seq<T>, restY: seq<T>)
    requires multiset(restX) == multiset(mid) + multiset(restY)
    ensures multiset([x] + there + restX) == multiset([x] + mid) + multiset(there + restY)
  {
  }

  lemma PeelShape<T>(xs: seq<T>, k: nat, i: nat)
    requires 1 <= k <= |xs| && i < k
    ensures var ys := xs[k..];
      && StridesFrom(xs, k, i) == [xs[i]] + Stride(ys, i, k) + StridesFrom(xs, k, i + 1)
      && StridesFrom(ys, k, i) == Stride(ys, i, k) + StridesFrom(ys, k, i + 1)
      && xs[i..k] == [xs[i]] + xs[i + 1..k]
  {
    StrideShift(xs, i, k);
  }

  /** The slices of a list of at least `k` entries are its first `k` entries followed by the slices of the rest. */
  lemma {:induction false} StridesPeel<T>(xs: seq<T>, k: nat, i: nat)
    requires 1 <= k <= |xs| && i <= k
    ensures multiset(StridesFrom(xs, k, i)) == multiset(xs[i..k]) + multiset(StridesFrom(xs[k..], k, i))
    decreases k - i
  {
    if i < k {
      var ys := xs[k..];
      PeelShape(xs, k, i);
      StridesPeel(xs, k, i + 1);
      PeelStep(xs[i], Stride(ys, i, k), StridesFrom(xs, k, i + 1), xs[i + 1..k], StridesFrom(ys, k, i + 1));
    }
  }

  lemma {:induction false} StridesPermutation<T>(xs: seq<T>, k: nat)
    requires k >= 1
    ensures multiset(StridesFrom(xs, k, 0)) == multiset(xs)
    decreases |xs|
  {
    if |xs| <= k {
      StridesShort(xs, k, 0);
      assert xs[0..] == xs;
    } else {
      StridesPeel(xs, k, 0);
      StridesPermutation(xs[k..], k);
      assert xs == xs[0..k] + xs[k..];
    }
  }

  /**
   * For `num_splits >= 1` the splits together hold exactly the discovered entries: their
   * concatenation is a permutation of the list, so nothing is lost or duplicated. For
   * `num_splits <= 0` the single split is empty and every entry is dropped.
   */
  lemma RoundRobinPermutation<T>(xs: seq<T>, numSplits: int)
    ensures numSplits >= 1 ==> multiset(Flatten(RoundRobin(xs, numSplits))) == multiset(xs)
    ensures numSplits < 1 ==> Flatten(RoundRobin(xs, numSplits)) == []
  {
    if numSplits >= 1 {
      BatchesFlatten(xs, numSplits, 0);
      StridesPermutation(xs, numSplits);
      if Batches(xs, numSplits, 0) == [] {
        assert Flatten<T>([[]]) == [];
      }
    } else {
      assert Flatten<T>([[]]) == [];
    }
  }

  predicate Distinct<T(==)>(xs: seq<T>) {
    forall p, q :: 0 <= p < q < |xs| ==> xs[p] != xs[q]
  }

  lemma {:induction false} MulStep(x: nat, y: nat, k: nat)
    requires x < y
    ensures x * k + k <= y * k
    decreases y - x
  {
    if x + 1 < y {
      MulStep(x, y - 1, k);
    }
    assert y * k == (y - 1) * k + k;
  }

  /** Indices of different slices never meet: `a + u*k == b + v*k` with `a, b < k` forces `a == b` and `u == v`. */
  lemma StrideIndicesApart(a: nat, b: nat, u: nat, v: nat, k: nat)
    requires a < k && b < k && a + u * k == b + v * k
    ensures a == b && u == v
  {
    if u < v {
      MulStep(u, v, k);
    } else if v < u {
      MulStep(v, u, k);
    }
  }

  /** Two slices of a list of distinct entries share an entry only at the same place of the same slice. */
  lemma StridesApart<T>(xs: seq<T>, k: nat, a: nat, b: nat, u: nat, v: nat)
    requires k >= 1 && a < k && b < k && Distinct(xs)
    requires u < |Stride(xs, a, k)| && v < |Stride(xs, b, k)| && Stride(xs, a, k)[u] == Stride(xs, b, k)[v]
    ensures a == b && u == v
  {
    StrideIndex(xs, a, k, u);
    StrideIndex(xs, b, k, v);
    var p, q := a + u * k, b + v * k;
    assert xs[p] == xs[q];
    assert p == q;
    StrideIndicesApart(a, b, u, v, k);
  }

  /** When the discovered paths are distinct, no path is in two splits, nor twice in one. */
  lemma RoundRobinDisjoint<T>(xs: seq<T>, k: int, a: nat, b: nat, u: nat, v: nat)
    requires k >= 1 && Distinct(xs)
    requires var s := RoundRobin(xs, k); a < |s| && b < |s| && u < |s[a]| && v < |s[b]| && s[a][u] == s[b][v]
    ensures a == b && u == v
  {
    RoundRobinShape(xs, k);
    if |xs| >= 1 {
      StridesApart(xs, k, a, b, u, v);
    }
  }

  /** The arguments of `client.vector_dbs.register`. */
  datatype Registration = Registration(vectorDbId: string, embeddingModel: string, embeddingDimension: int,
                                       providerId: string)

  const Milvus: string := "milvus"

  /** The test `m.provider_resource_id == id` of the `next(...)` search. */
  function UnderProvider(id: string): ModelInfo -> bool {
    (m: ModelInfo) => m.providerResourceId == id
  }

  /**
   * `register_vector_db`: the registration it sends, or the exception it raises —
   * a `ValueError` for a missing or non-embedding model, a `KeyError` when the model's
   * metadata has no embedding dimension.
   */
  function RegisterVectorDb(models: seq<ModelInfo>, vectorDbId: string, embedModelId: string)
    : Result<Registration, string>
  {
    match FirstWhere(models, UnderProvider(embedModelId))
    case None => Failure("ValueError: Model with ID '" + embedModelId + "' not found on LlamaStack server.")
    case Some(i) =>
      var m := models[i];
      if m.modelType != "embedding" then
        Failure("ValueError: Model '" + embedModelId + "' is not an embedding model")
      else if m.embeddingDimension.None? then
        Failure("KeyError: 'embedding_dimension'")
      else
        Success(Registration(vectorDbId, m.identifier, m.embeddingDimension.value, Milvus))
  }

  /**
   * Registration succeeds exactly when the first model listed under the requested provider
   * id is an embedding model with a dimension, and it then names that model's own identifier
   * and dimension, the requested vector-db id and the Milvus provider.
   */
  lemma RegisterVectorDbSucceeds(models: seq<ModelInfo>, vectorDbId: string, embedModelId: string, i: nat)
    requires i < |models| && models[i].providerResourceId == embedModelId
    requires forall j :: 0 <= j < i ==> models[j].providerResourceId != embedModelId
    ensures var r := RegisterVectorDb(models, vectorDbId, embedModelId); var m := models[i];
      && (r.Success? <==> m.modelType == "embedding" && m.embeddingDimension.Some?)
      && (r.Success? ==>
            r.value == Registration(vectorDbId, m.identifier, m.embeddingDimension.value, Milvus))
  {
  }

  /** A later model with the same provider id is never consulted, whatever it is. */
  lemma RegisterVectorDbFirstWins(models: seq<ModelInfo>, later: seq<ModelInfo>, vectorDbId: string,
                                  embedModelId: string)
    requires exists j :: 0 <= j < |models| && models[j].providerResourceId == embedModelId
    ensures RegisterVectorDb(models + later, vectorDbId, embedModelId)
         == RegisterVectorDb(models, vectorDbId, embedModelId)
  {
    var all := models + later;
    var f := FirstWhere(models, UnderProvider(embedModelId));
    assert all[f.value] == models[f.value];
  }

  /** No model under the requested provider id: the "not found" error, and nothing registered. */
  lemma RegisterVectorDbNotFound(models: seq<ModelInfo>, vectorDbId: string, embedModelId: string)
    requires forall j :: 0 <= j < |models| ==> models[j].providerResourceId != embedModelId
    ensures RegisterVectorDb(models, vectorDbId, embedModelId)
         == Failure("ValueError: Model with ID '" + embedModelId + "' not found on LlamaStack server.")
  {
  }
}
