/** The aggregates the dashboard page computes from the user's files
    (`src/app/dashboard/page.tsx`): storage used, the tier limits, the
    histogram of top-level MIME types and the list of "popular" files. */
module Dashboard {
  import opened Schema
  import Seqs
  import Strings

  // ---------------------------------------------------------------------------
  // Storage

  /** `files.reduce((total, file) => total + file.size, 0)` */
  function StorageUsed(files: seq<FileRecord>): (used: nat)
    ensures files == [] ==> used == 0
    ensures |files| == 1 ==> used == files[0].size
    ensures forall i :: 0 <= i < |files| ==> files[i].size <= used
  {
    assert forall i :: 0 <= i < |files| - 1 ==> files[i] == files[..|files| - 1][i];
    if files == [] then 0 else StorageUsed(files[..|files| - 1]) + files[|files| - 1].size
  }

  /** The storage used by two lists is the sum of what each uses. */
  lemma {:induction false} StorageUsedAppend(a: seq<FileRecord>, b: seq<FileRecord>)
    ensures StorageUsed(a + b) == StorageUsed(a) + StorageUsed(b)
    decreases |b|
  {
    if b == [] {
      assert a + b == a;
    } else {
      assert (a + b)[..|a + b| - 1] == a + b[..|b| - 1];
      StorageUsedAppend(a, b[..|b| - 1]);
    }
  }

  const GiB: nat := 1024 * 1024 * 1024

  /** `storageLimit` and `totalStorage` (page.tsx:64,66). */
  function StorageLimit(isPro: bool): (limit: nat)
    ensures limit == if isPro then 50 * GiB else 5 * GiB
  {
    if isPro then 50 * 1024 * 1024 * 1024 else 5 * 1024 * 1024 * 1024
  }

  /** `bandwidth` and `bandwidthLimit` (page.tsx:71,73). */
  function BandwidthLimit(isPro: bool): (limit: nat)
    ensures limit == if isPro then 200 * GiB else 20 * GiB
  {
    if isPro then 200 * 1024 * 1024 * 1024 else 20 * 1024 * 1024 * 1024
  }

  // ---------------------------------------------------------------------------
  // File type histogram

  /** `file.type.split("/")[0] || "other"` */
  function TypeKey(mimeType: string): (key: string)
    ensures key != "" && '/' !in key
    ensures key == "other" || Strings.StartsWith(mimeType, key + "/") || key == mimeType
    // "other" exactly when the text before the first "/" is empty
    ensures mimeType == [] || mimeType[0] == '/' ==> key == "other"
    ensures mimeType != [] && mimeType[0] != '/' ==>
      Strings.StartsWith(mimeType, key + "/") || key == mimeType
  {
    var k := Seqs.FirstIndex((c: char) => c == '/', mimeType);
    var head := mimeType[..k];
    assert k < |mimeType| ==> mimeType[..k + 1] == head + "/";
    if head == "" then "other" else head
  }

  /** The type keys of `files`, each once, in order of first appearance. */
  function DistinctTypes(files: seq<FileRecord>): (keys: seq<string>)
    ensures forall i, j :: 0 <= i < j < |keys| ==> keys[i] != keys[j]
    ensures forall i :: 0 <= i < |files| ==> TypeKey(files[i].mimeType) in keys
  {
    if files == [] then []
    else
      var init := files[..|files| - 1];
      var keys := DistinctTypes(init);
      var k := TypeKey(files[|files| - 1].mimeType);
      assert forall i :: 0 <= i < |init| ==> files[i] == init[i];
      if k in keys then keys else keys + [k]
  }

  /** Every key listed is the key of some file. */
  lemma {:induction false} DistinctTypesComeFromFiles(files: seq<FileRecord>, k: string)
    requires k in DistinctTypes(files)
    ensures exists i :: 0 <= i < |files| && TypeKey(files[i].mimeType) == k
  {
    var init := files[..|files| - 1];
    if k in DistinctTypes(init) {
      DistinctTypesComeFromFiles(init, k);
      var i :| 0 <= i < |init| && TypeKey(init[i].mimeType) == k;
      assert files[i] == init[i];
    } else {
      assert TypeKey(files[|files| - 1].mimeType) == k;
    }
  }

  /** How many of `files` have type key `k`. */
  function Occurrences(files: seq<FileRecord>, k: string): nat {
    if files == [] then 0
    else Occurrences(files[..|files| - 1], k) + (if TypeKey(files[|files| - 1].mimeType) == k then 1 else 0)
  }

  /** One bar of the histogram. */
  datatype TypeCount = TypeCount(name: string, value: nat)

  /** The five empty bars shown when there are no files (page.tsx:114-122). */
  const EmptyDistribution: seq<TypeCount> := [
    TypeCount("image", 0), TypeCount("video", 0), TypeCount("audio", 0),
    TypeCount("document", 0), TypeCount("other", 0)
  ]

  /** `generateFileTypeDistribution` (page.tsx:106-125): counts the files per
      type key in a dictionary, in first-appearance order of the keys. */
  method GenerateFileTypeDistribution(files: seq<FileRecord>) returns (entries: seq<TypeCount>)
    ensures files == [] ==> entries == EmptyDistribution
    ensures files != [] ==>
      |entries| == |DistinctTypes(files)|
      && forall i :: 0 <= i < |entries| ==>
           entries[i] == TypeCount(DistinctTypes(files)[i], Occurrences(files, DistinctTypes(files)[i]))
  {
    // `order` is the insertion order of the dictionary's keys, which
    // `Object.entries` follows.
    var order: seq<string> := [];
    var typeCount: map<string, nat> := map[];
    var i := 0;
    while i < |files|
      invariant 0 <= i <= |files|
      invariant typeCount == CountMap(files[..i]) && order == DistinctTypes(files[..i])
    {
      var key := TypeKey(files[i].mimeType);
      OneMoreFile(files, i);
      CountMapDomain(files[..i]);
      if key !in typeCount {
        order := order + [key];
      }
      typeCount := typeCount[key := (if key in typeCount then typeCount[key] else 0) + 1];
      i := i + 1;
    }
    assert files[..i] == files;
    CountMapGivesEntries(files);
    if |typeCount| == 0 {
      entries := EmptyDistribution;
    } else {
      entries := Entries(typeCount, order);
    }
  }

  /** The dictionary the loop builds: type key to number of files. */
  function CountMap(files: seq<FileRecord>): map<string, nat> {
    if files == [] then map[]
    else
      var m := CountMap(files[..|files| - 1]);
      var k := TypeKey(files[|files| - 1].mimeType);
      m[k := (if k in m then m[k] else 0) + 1]
  }

  /** `Object.entries(typeCount)` as bars, in key insertion order. */
  function Entries(typeCount: map<string, nat>, order: seq<string>): (entries: seq<TypeCount>)
    requires forall k :: k in order ==> k in typeCount
    ensures |entries| == |order|
    ensures forall j :: 0 <= j < |order| ==> entries[j] == TypeCount(order[j], typeCount[order[j]])
  {
    seq(|order|, j requires 0 <= j < |order| => TypeCount(order[j], typeCount[order[j]]))
  }

  /** The dictionary has a key exactly for each distinct type. */
  lemma {:induction false} CountMapDomain(files: seq<FileRecord>)
    ensures forall k :: k in CountMap(files) <==> k in DistinctTypes(files)
  {
    if files != [] {
      CountMapDomain(files[..|files| - 1]);
    }
  }

  /** Each key maps to the number of files of that type. */
  lemma {:induction false} CountMapCounts(files: seq<FileRecord>)
    ensures forall k :: k in CountMap(files) ==> CountMap(files)[k] == Occurrences(files, k)
  {
    if files != [] {
      var init := files[..|files| - 1];
      CountMapCounts(init);
      CountMapDomain(init);
      forall k | k in CountMap(files) ensures CountMap(files)[k] == Occurrences(files, k) {
        if k !in CountMap(init) {
          OccurrencesOfAbsentType(init, k);
        }
      }
    }
  }

  /** The dictionary of all the files is empty exactly when there are no
      files, and its entries are the per-type counts in first-appearance order. */
  lemma CountMapGivesEntries(files: seq<FileRecord>)
    ensures (|CountMap(files)| == 0) == (files == [])
    ensures forall k :: k in DistinctTypes(files) ==> k in CountMap(files)
    ensures files != [] ==>
      var entries := Entries(CountMap(files), DistinctTypes(files));
      |entries| == |DistinctTypes(files)|
      && forall j :: 0 <= j < |entries| ==>
           entries[j] == TypeCount(DistinctTypes(files)[j], Occurrences(files, DistinctTypes(files)[j]))
  {
    CountMapDomain(files);
    CountMapCounts(files);
    if files != [] {
      assert TypeKey(files[0].mimeType) in CountMap(files);
    }
  }

  /** The effect of the i-th file on the keys and the counts. */
  lemma OneMoreFile(files: seq<FileRecord>, i: nat)
    requires i < |files|
    ensures var k := TypeKey(files[i].mimeType);
      && DistinctTypes(files[..i + 1]) == (if k in DistinctTypes(files[..i]) then DistinctTypes(files[..i]) else DistinctTypes(files[..i]) + [k])
      && CountMap(files[..i + 1]) == var m := CountMap(files[..i]); m[k := (if k in m then m[k] else 0) + 1]
  {
    var pre := files[..i + 1];
    assert pre[..|pre| - 1] == files[..i] && pre[|pre| - 1] == files[i];
    OneMoreKey(pre);
    OneMoreCount(pre);
  }

  lemma OneMoreKey(files: seq<FileRecord>)
    requires files != []
    ensures var k := TypeKey(files[|files| - 1].mimeType);
      var keys := DistinctTypes(files[..|files| - 1]);
      DistinctTypes(files) == if k in keys then keys else keys + [k]
  {
  }

  lemma OneMoreCount(files: seq<FileRecord>)
    requires files != []
    ensures var k := TypeKey(files[|files| - 1].mimeType);
      var m := CountMap(files[..|files| - 1]);
      CountMap(files) == m[k := (if k in m then m[k] else 0) + 1]
  {
    var init := files[..|files| - 1];
    assert files != [];
    var k := TypeKey(files[|files| - 1].mimeType);
    var m := CountMap(init);
    assert CountMap(files) == m[k := (if k in m then m[k] else 0) + 1];
  }

  /** Every bar of a non-empty histogram counts at least one file. */
  lemma {:induction false} OccurrencesOfDistinctType(files: seq<FileRecord>, k: string)
    requires k in DistinctTypes(files)
    ensures Occurrences(files, k) >= 1
  {
    var init := files[..|files| - 1];
    if TypeKey(files[|files| - 1].mimeType) != k {
      OccurrencesOfDistinctType(init, k);
    }
  }

  lemma {:induction false} OccurrencesOfAbsentType(files: seq<FileRecord>, k: string)
    requires k !in DistinctTypes(files)
    ensures Occurrences(files, k) == 0
  {
    if files != [] {
      OccurrencesOfAbsentType(files[..|files| - 1], k);
    }
  }

  /** The sum of the counts of the keys in `keys`. */
  function SumCounts(files: seq<FileRecord>, keys: seq<string>): nat {
    if keys == [] then 0
    else SumCounts(files, keys[..|keys| - 1]) + Occurrences(files, keys[|keys| - 1])
  }

  /** How often `k` appears in `keys`. */
  function CountOf(keys: seq<string>, k: string): nat {
    if keys == [] then 0
    else CountOf(keys[..|keys| - 1], k) + (if keys[|keys| - 1] == k then 1 else 0)
  }

  lemma {:induction false} CountOfDistinct(keys: seq<string>, k: string)
    requires forall i, j :: 0 <= i < j < |keys| ==> keys[i] != keys[j]
    ensures CountOf(keys, k) == if k in keys then 1 else 0
  {
    if keys != [] {
      var init := keys[..|keys| - 1];
      CountOfDistinct(init, k);
      assert keys == init + [keys[|keys| - 1]];
    }
  }

  /** Adding file `f` adds one to the count of its key, once per listing. */
  lemma {:induction false} SumCountsAfterOneMore(files: seq<FileRecord>, f: FileRecord, keys: seq<string>)
    ensures SumCounts(files + [f], keys) == SumCounts(files, keys) + CountOf(keys, TypeKey(f.mimeType))
  {
    assert (files + [f])[..|files + [f]| - 1] == files;
    if keys != [] {
      SumCountsAfterOneMore(files, f, keys[..|keys| - 1]);
    }
  }

  /** The counts of a non-empty histogram add up to the number of files. */
  lemma {:induction false} CountsAddUpToFileCount(files: seq<FileRecord>)
    ensures SumCounts(files, DistinctTypes(files)) == |files|
  {
    if files != [] {
      var init := files[..|files| - 1];
      var f := files[|files| - 1];
      var k := TypeKey(f.mimeType);
      var keys := DistinctTypes(init);
      assert files == init + [f];
      CountsAddUpToFileCount(init);
      SumCountsAfterOneMore(init, f, keys);
      CountOfDistinct(keys, k);
      if k !in keys {
        assert (keys + [k])[..|keys|] == keys;
        OccurrencesOfAbsentType(init, k);
      }
    }
  }

  // ---------------------------------------------------------------------------
  // Popular files

  /** A name longer than 20 characters is cut to 17 and "..." appended. */
  function Truncate(name: string): (shown: string)
    ensures |shown| <= 20
    ensures |name| <= 20 <==> shown == name
    ensures |name| > 20 ==> |shown| == 20 && shown[..17] == name[..17] && shown[17..] == "..."
  {
    if |name| > 20 then name[..17] + "..." else name
  }

  /** `generatePopularFiles` (page.tsx:147-154), names only. */
  function GeneratePopularFiles(files: seq<FileRecord>): (names: seq<string>)
    ensures |names| == if |files| < 5 then |files| else 5
    ensures forall i :: 0 <= i < |names| ==> names[i] == Truncate(files[i].name)
  {
    var top := if |files| < 5 then files else files[..5];
    seq(|top|, i requires 0 <= i < |top| => Truncate(top[i].name))
  }

  // ---------------------------------------------------------------------------
  // The whole summary

  datatype AnalyticsData = AnalyticsData(
    fileCount: nat, totalStorage: nat, storageUsed: nat, storageLimit: nat,
    fileTypeDistribution: seq<TypeCount>, popularFiles: seq<string>,
    bandwidth: nat, bandwidthUsed: nat, bandwidthLimit: nat)

  /** `analyticsData` (page.tsx:62-74), without the random activity series. */
  method BuildAnalytics(files: seq<FileRecord>, isPro: bool) returns (data: AnalyticsData)
    ensures data.fileCount == |files| && data.storageUsed == StorageUsed(files)
    ensures data.totalStorage == data.storageLimit == StorageLimit(isPro)
    ensures data.bandwidth == data.bandwidthLimit == BandwidthLimit(isPro) && data.bandwidthUsed == 0
    ensures files == [] ==> data.fileTypeDistribution == EmptyDistribution
    ensures files != [] ==> |data.fileTypeDistribution| == |DistinctTypes(files)|
    ensures files != [] ==> forall i :: 0 <= i < |data.fileTypeDistribution| ==>
      data.fileTypeDistribution[i] == TypeCount(DistinctTypes(files)[i], Occurrences(files, DistinctTypes(files)[i]))
    ensures files != [] ==> SumOfValues(data.fileTypeDistribution) == data.fileCount
    ensures forall e :: e in data.fileTypeDistribution && files != [] ==> e.value >= 1
    ensures data.popularFiles == GeneratePopularFiles(files)
  {
    var distribution := GenerateFileTypeDistribution(files);
    if files != [] {
      var keys := DistinctTypes(files);
      CountsAddUpToFileCount(files);
      SumOfValuesIsSumCounts(files, keys, distribution);
      forall e | e in distribution ensures e.value >= 1 {
        var i :| 0 <= i < |distribution| && distribution[i] == e;
        OccurrencesOfDistinctType(files, keys[i]);
      }
    }
    data := AnalyticsData(|files|, StorageLimit(isPro), StorageUsed(files), StorageLimit(isPro),
                          distribution, GeneratePopularFiles(files),
                          BandwidthLimit(isPro), 0, BandwidthLimit(isPro));
  }

  function SumOfValues(entries: seq<TypeCount>): nat {
    if entries == [] then 0 else SumOfValues(entries[..|entries| - 1]) + entries[|entries| - 1].value
  }

  lemma {:induction false} SumOfValuesIsSumCounts(files: seq<FileRecord>, keys: seq<string>, entries: seq<TypeCount>)
    requires |entries| == |keys|
    requires forall i :: 0 <= i < |entries| ==> entries[i] == TypeCount(keys[i], Occurrences(files, keys[i]))
    ensures SumOfValues(entries) == SumCounts(files, keys)
  {
    if entries != [] {
      SumOfValuesIsSumCounts(files, keys[..|keys| - 1], entries[..|entries| - 1]);
    }
  }
}
