/** Preparing geodata files: the assets of one file are tried in order by one worker of a pool, and
    the pool's run can be cancelled at any time. */
module Geodata {
  import opened Bytes
  import opened Wrappers

  type FileName = string
  type Body = seq<byte>

  /** The regular files of the geodata directory. */
  type Files = map<FileName, Body>

  datatype Asset = Asset(url: string, file: FileName)

  const WORKERS: nat := 5

  function Temporary(file: FileName): FileName {
    file + ".download"
  }

  function At(files: Files, name: FileName): Option<Body> {
    if name in files then Some(files[name]) else None
  }

  // ---------------------------------------------------------------- grouping

  /** The files of the assets, each once, in order of first appearance. */
  function DistinctFiles(assets: seq<Asset>): seq<FileName> {
    if assets == [] then []
    else
      var before, file := DistinctFiles(assets[..|assets| - 1]), assets[|assets| - 1].file;
      if file in before then before else before + [file]
  }

  /** The assets of a file, in their order. */
  function Sources(assets: seq<Asset>, file: FileName): seq<Asset> {
    if assets == [] then []
    else Sources(assets[..|assets| - 1], file) +
         if assets[|assets| - 1].file == file then [assets[|assets| - 1]] else []
  }

  /** The i-th group is the assets of the i-th distinct file. */
  function Groups(assets: seq<Asset>): seq<seq<Asset>> {
    var files := DistinctFiles(assets);
    seq(|files|, i requires 0 <= i < |files| => Sources(assets, files[i]))
  }

  lemma {:induction false} DistinctFilesAreDistinct(assets: seq<Asset>)
    ensures forall i, j | 0 <= i < j < |DistinctFiles(assets)| :: DistinctFiles(assets)[i] != DistinctFiles(assets)[j]
  {
    if assets != [] {
      DistinctFilesAreDistinct(assets[..|assets| - 1]);
    }
  }

  /** Every asset is in the group of its file. */
  lemma {:induction false} AssetIsGrouped(assets: seq<Asset>, k: nat)
    requires k < |assets|
    ensures assets[k].file in DistinctFiles(assets) && assets[k] in Sources(assets, assets[k].file)
  {
    var n := |assets| - 1;
    if k < n {
      AssetIsGrouped(assets[..n], k);
      assert assets[..n][k] == assets[k];
    }
  }

  /** The assets of a file in a list are those in its parts, one part after the other. */
  lemma {:induction false} SourcesConcat(a: seq<Asset>, b: seq<Asset>, file: FileName)
    ensures Sources(a + b, file) == Sources(a, file) + Sources(b, file)
  {
    hide Sources;
    if b == [] {
      assert a + b == a;
      SourcesOfNone(file);
    } else {
      var n := |b| - 1;
      SourcesConcat(a, b[..n], file);
      SourcesNext(a + b[..n], b[n], file);
      SourcesNext(b[..n], b[n], file);
      assert a + b[..n] + [b[n]] == a + b && b[..n] + [b[n]] == b;
    }
  }

  /** One asset is a source of its own file alone. */
  lemma SourcesNext(assets: seq<Asset>, asset: Asset, file: FileName)
    ensures asset.file == file ==> Sources(assets + [asset], file) == Sources(assets, file) + [asset]
    ensures asset.file != file ==> Sources(assets + [asset], file) == Sources(assets, file)
  {
    Next(assets, asset, file);
  }

  lemma SourcesOfNone(file: FileName)
    ensures Sources([], file) == []
  {
  }

  /** The files come in the order of first appearance. */
  lemma {:induction false} FilesInOrder(assets: seq<Asset>, i: nat, j: nat, q: nat)
    requires i < j < |DistinctFiles(assets)| && q < |assets| && assets[q].file == DistinctFiles(assets)[j]
    ensures exists p :: 0 <= p < q && assets[p].file == DistinctFiles(assets)[i]
  {
    var n := |assets| - 1;
    var before := assets[..n];
    var files := DistinctFiles(before);
    if j < |files| && q < n {
      FilesInOrder(before, i, j, q);
      var p :| 0 <= p < q && before[p].file == files[i];
      assert assets[p].file == files[i];
    } else {
      if q < n { AssetIsGrouped(before, q); }
      DistinctFilesAreDistinct(assets);
      assert files[i] == DistinctFiles(assets)[i] && files[i] in files;
      SourcesAreOfFile(before, files[i]);
      var a := Sources(before, files[i])[0];
      assert a in Sources(before, files[i]);
      var p :| 0 <= p < n && before[p] == a;
      assert assets[p] == a;
    }
  }

  lemma {:induction false} SourcesAreOfFile(assets: seq<Asset>, file: FileName)
    ensures forall a <- Sources(assets, file) :: a in assets && a.file == file
    ensures Sources(assets, file) != [] <==> file in DistinctFiles(assets)
  {
    if assets != [] {
      var n := |assets| - 1;
      SourcesAreOfFile(assets[..n], file);
      forall a | a in Sources(assets, file) ensures a in assets && a.file == file {
        if a in Sources(assets[..n], file) { assert a in assets[..n]; }
      }
    }
  }

  lemma Next(assets: seq<Asset>, asset: Asset, file: FileName)
    ensures Sources(assets + [asset], file) == Sources(assets, file) + if asset.file == file then [asset] else []
    ensures DistinctFiles(assets + [asset])
         == DistinctFiles(assets) + if asset.file in DistinctFiles(assets) then [] else [asset.file]
  {
    assert (assets + [asset])[..|assets|] == assets;
  }

  lemma GroupGrows(assets: seq<Asset>, asset: Asset, index: nat)
    requires index < |DistinctFiles(assets)| && DistinctFiles(assets)[index] == asset.file
    ensures Groups(assets + [asset]) == Groups(assets)[index := Groups(assets)[index] + [asset]]
    ensures DistinctFiles(assets + [asset]) == DistinctFiles(assets)
  {
    hide DistinctFiles, Sources;
    var files := DistinctFiles(assets);
    Next(assets, asset, asset.file);
    DistinctFilesAreDistinct(assets);
    assert files + [] == files;
    var grown := Groups(assets)[index := Groups(assets)[index] + [asset]];
    forall i | 0 <= i < |files| ensures Groups(assets + [asset])[i] == grown[i] {
      Next(assets, asset, files[i]);
    }
  }

  lemma GroupStarts(assets: seq<Asset>, asset: Asset)
    requires asset.file !in DistinctFiles(assets)
    ensures Groups(assets + [asset]) == Groups(assets) + [[asset]]
    ensures DistinctFiles(assets + [asset]) == DistinctFiles(assets) + [asset.file]
  {
    hide DistinctFiles, Sources;
    var files := DistinctFiles(assets);
    Next(assets, asset, asset.file);
    SourcesAreOfFile(assets, asset.file);
    var next := Groups(assets + [asset]);
    forall i | 0 <= i < |files| ensures next[i] == Groups(assets)[i] {
      Next(assets, asset, files[i]);
    }
    assert next[|files|] == [asset];
    assert next == Groups(assets) + [[asset]];
  }

  method GroupGeodataAssets(assets: seq<Asset>) returns (groups: seq<seq<Asset>>)
    ensures groups == Groups(assets)
  {
    groups := [];
    var indexByFile: map<FileName, nat> := map[];
    for n := 0 to |assets|
      invariant groups == Groups(assets[..n])
      invariant forall file :: file in DistinctFiles(assets[..n]) <==> file in indexByFile
      invariant forall file :: file in indexByFile ==>
                  indexByFile[file] < |groups| && DistinctFiles(assets[..n])[indexByFile[file]] == file
    {
      hide DistinctFiles, Sources;
      var asset := assets[n];
      assert assets[..n + 1] == assets[..n] + [asset];
      if asset.file in indexByFile {
        var index := indexByFile[asset.file];
        GroupGrows(assets[..n], asset, index);
        groups := groups[index := groups[index] + [asset]];
        continue;
      }
      GroupStarts(assets[..n], asset);
      indexByFile := indexByFile[asset.file := |groups|];
      groups := groups + [[asset]];
    }
    assert assets[..|assets|] == assets;
  }
}
