/** Which files a torrent job downloads, and when it has them all. */
module Selection {
  import opened Wrappers

  datatype Priority = Skip | Normal

  /** A file is chosen if its path was asked for and may be uploaded. */
  predicate Chosen(path: string, selectedPaths: seq<string>, supported: string -> bool) {
    path in selectedPaths && supported(path)
  }

  /** The indices below n of the chosen files, in the torrent's order. */
  function ChosenFiles(paths: seq<string>, selectedPaths: seq<string>, supported: string -> bool, n: nat): (r: seq<nat>)
    requires n <= |paths|
    ensures forall i :: 0 <= i < |r| ==> r[i] < n && Chosen(paths[r[i]], selectedPaths, supported)
    ensures forall k :: 0 <= k < n && Chosen(paths[k], selectedPaths, supported) ==> k in r
  {
    if n == 0 then []
    else
      ChosenFiles(paths, selectedPaths, supported, n - 1)
      + if Chosen(paths[n - 1], selectedPaths, supported) then [n - 1] else []
  }

  predicate InOrder(r: seq<nat>) {
    forall i, j :: 0 <= i < j < |r| ==> r[i] < r[j]
  }

  /** In the torrent's order, and each once. */
  lemma {:induction false} ChosenInOrder(paths: seq<string>, selectedPaths: seq<string>, supported: string -> bool,
                                         n: nat)
    requires n <= |paths|
    ensures InOrder(ChosenFiles(paths, selectedPaths, supported, n))
  {
    if n > 0 {
      ChosenInOrder(paths, selectedPaths, supported, n - 1);
      var init := ChosenFiles(paths, selectedPaths, supported, n - 1);
      if Chosen(paths[n - 1], selectedPaths, supported) {
        AppendInOrder(init, n - 1);
      } else {
        assert ChosenFiles(paths, selectedPaths, supported, n) == init;
      }
    }
  }

  lemma AppendInOrder(r: seq<nat>, last: nat)
    requires InOrder(r) && forall i :: 0 <= i < |r| ==> r[i] < last
    ensures InOrder(r + [last])
  {
  }

  /** The indices below n of the files marked for download. */
  function Marked(priorities: seq<Priority>, n: nat): seq<nat>
    requires n <= |priorities|
  {
    if n == 0 then [] else Marked(priorities, n - 1) + if priorities[n - 1] != Skip then [n - 1] else []
  }

  ghost predicate MarkedAs(priorities: seq<Priority>, paths: seq<string>, selectedPaths: seq<string>,
                           supported: string -> bool) {
    && |priorities| == |paths|
    && forall i :: 0 <= i < |paths| ==>
         priorities[i] == if Chosen(paths[i], selectedPaths, supported) then Normal else Skip
  }

  /** A selection is accepted if it names something, and only supported files
      of the torrent. */
  predicate Accepted(paths: seq<string>, selectedPaths: seq<string>, supported: string -> bool) {
    selectedPaths != [] && forall i :: 0 <= i < |selectedPaths| ==>
                             selectedPaths[i] in paths && supported(selectedPaths[i])
  }

  class Torrent {
    const paths: seq<string>
    const priorities: array<Priority>

    constructor (paths: seq<string>)
      ensures this.paths == paths && Valid() && fresh(priorities)
      ensures forall i :: 0 <= i < priorities.Length ==> priorities[i] == Normal
    {
      this.paths := paths;
      priorities := new Priority[|paths|](_ => Normal);
    }

    predicate Valid() {
      priorities.Length == |paths|
    }

    /** A rejected selection has already changed the priorities. */
    method ApplySelectedPriority(selectedPaths: seq<string>, supported: string -> bool) returns (r: Option<seq<nat>>)
      requires Valid()
      modifies priorities
      ensures MarkedAs(priorities[..], paths, selectedPaths, supported)
      ensures r.Some? <==> Accepted(paths, selectedPaths, supported)
      ensures r.Some? ==> r.value == ChosenFiles(paths, selectedPaths, supported, |paths|)
    {
      var wanted: set<string> := {};
      for i := 0 to |selectedPaths|
        invariant forall p :: p in wanted <==> p in selectedPaths[..i]
      {
        wanted := wanted + {selectedPaths[i]};
      }
      assert selectedPaths[..|selectedPaths|] == selectedPaths;
      var selected, matched := MarkFiles(wanted, selectedPaths, supported);
      for i := 0 to |selectedPaths|
        invariant forall k :: 0 <= k < i ==> selectedPaths[k] in matched
      {
        if selectedPaths[i] !in matched {
          return None;
        }
      }
      assert selectedPaths != [] ==> selectedPaths[0] in matched;
      if |selected| == 0 {
        return None;
      }
      assert Chosen(paths[selected[0]], selectedPaths, supported);
      r := Some(selected);
    }

    /** The pass over the torrent's files. */
    method MarkFiles(wanted: set<string>, ghost selectedPaths: seq<string>, supported: string -> bool)
      returns (selected: seq<nat>, matched: set<string>)
      requires Valid() && forall p :: p in wanted <==> p in selectedPaths
      modifies priorities
      ensures MarkedAs(priorities[..], paths, selectedPaths, supported)
      ensures selected == ChosenFiles(paths, selectedPaths, supported, |paths|)
      ensures forall p :: p in matched <==> p in paths && Chosen(p, selectedPaths, supported)
      ensures selected == [] ==> matched == {}
    {
      matched, selected := {}, [];
      for i := 0 to |paths|
        invariant selected == ChosenFiles(paths, selectedPaths, supported, i)
        invariant forall p :: p in matched <==> p in paths[..i] && Chosen(p, selectedPaths, supported)
        invariant forall k :: 0 <= k < i ==>
                    priorities[k] == if Chosen(paths[k], selectedPaths, supported) then Normal else Skip
        invariant selected == [] ==> matched == {}
      {
        assert paths[..i + 1] == paths[..i] + [paths[i]];
        if paths[i] in wanted && supported(paths[i]) {
          priorities[i] := Normal;
          selected := selected + [i];
          matched := matched + {paths[i]};
        } else {
          priorities[i] := Skip;
        }
      }
      assert paths[..|paths|] == paths;
    }

    method SelectedFilesOf() returns (selected: seq<nat>)
      requires Valid()
      ensures selected == Marked(priorities[..], |paths|)
    {
      selected := [];
      for i := 0 to |paths|
        invariant selected == Marked(priorities[..], i)
      {
        if priorities[i] != Skip {
          selected := selected + [i];
        }
      }
    }
  }

  /** What was chosen is what progress and import will see. */
  lemma {:induction false} MarkedChosen(priorities: seq<Priority>, paths: seq<string>, selectedPaths: seq<string>,
                                        supported: string -> bool, n: nat)
    requires MarkedAs(priorities, paths, selectedPaths, supported) && n <= |paths|
    ensures Marked(priorities, n) == ChosenFiles(paths, selectedPaths, supported, n)
  {
    if n > 0 {
      MarkedChosen(priorities, paths, selectedPaths, supported, n - 1);
    }
  }

  function PathsOf(paths: seq<string>, files: seq<nat>): set<string>
    requires forall i :: 0 <= i < |files| ==> files[i] < |paths|
  {
    set i | 0 <= i < |files| :: paths[files[i]]
  }

  /** An accepted selection downloads exactly the paths asked for. */
  lemma SelectedExactly(paths: seq<string>, selectedPaths: seq<string>, supported: string -> bool)
    requires Accepted(paths, selectedPaths, supported)
    ensures PathsOf(paths, ChosenFiles(paths, selectedPaths, supported, |paths|)) == set p | p in selectedPaths
  {
  }

  /** Jobs on one torrent share its priorities: after two selections, what is
      marked is the second one alone, and the first job still finds all its
      files marked exactly if the second selection covers them. */
  lemma LastSelectionWins(paths: seq<string>, first: seq<string>, second: seq<string>, supported: string -> bool,
                          priorities: seq<Priority>)
    requires Accepted(paths, first, supported)
    requires MarkedAs(priorities, paths, second, supported)
    ensures Marked(priorities, |paths|) == ChosenFiles(paths, second, supported, |paths|)
    ensures (forall i :: 0 <= i < |paths| && Chosen(paths[i], first, supported) ==> priorities[i] == Normal)
       <==> (forall i :: 0 <= i < |first| ==> first[i] in second)
  {
    MarkedChosen(priorities, paths, second, supported, |paths|);
    if forall i :: 0 <= i < |paths| && Chosen(paths[i], first, supported) ==> priorities[i] == Normal {
      forall i | 0 <= i < |first| ensures first[i] in second {
        var k :| 0 <= k < |paths| && paths[k] == first[i];
        assert Chosen(paths[k], first, supported);
      }
    }
  }

  // ---- Progress ---------------------------------------------------------------------

  datatype FileProgress = FileProgress(downloaded: int, total: int)

  function SumDownloaded(files: seq<FileProgress>): int {
    if files == [] then 0 else SumDownloaded(files[..|files| - 1]) + files[|files| - 1].downloaded
  }

  function SumTotal(files: seq<FileProgress>): int {
    if files == [] then 0 else SumTotal(files[..|files| - 1]) + files[|files| - 1].total
  }

  method SumFileProgress(files: seq<FileProgress>) returns (downloaded: int, total: int)
    ensures downloaded == SumDownloaded(files) && total == SumTotal(files)
  {
    downloaded, total := 0, 0;
    for i := 0 to |files|
      invariant downloaded == SumDownloaded(files[..i]) && total == SumTotal(files[..i])
    {
      assert files[..i + 1][..i] == files[..i];
      downloaded, total := downloaded + files[i].downloaded, total + files[i].total;
    }
    assert files[..|files|] == files;
  }

  predicate IsComplete(downloaded: int, total: int) {
    total > 0 && downloaded >= total
  }

  predicate Within(files: seq<FileProgress>) {
    forall i :: 0 <= i < |files| ==> 0 <= files[i].downloaded <= files[i].total
  }

  predicate AllThere(files: seq<FileProgress>) {
    forall i :: 0 <= i < |files| ==> files[i].downloaded == files[i].total
  }

  predicate SomeBytes(files: seq<FileProgress>) {
    exists i :: 0 <= i < |files| && files[i].total > 0
  }

  lemma {:induction false} SumsCompare(files: seq<FileProgress>)
    requires Within(files)
    ensures 0 <= SumDownloaded(files) <= SumTotal(files)
    ensures SumDownloaded(files) == SumTotal(files) <==> AllThere(files)
    ensures SumTotal(files) > 0 <==> SomeBytes(files)
  {
    if files != [] {
      var rest := files[..|files| - 1];
      SumsCompare(rest);
      assert AllThere(files) <==> AllThere(rest) && files[|files| - 1].downloaded == files[|files| - 1].total by {
        assert AllThere(files) ==> AllThere(rest);
      }
      assert SomeBytes(rest) ==> SomeBytes(files) by {
        if SomeBytes(rest) {
          var i :| 0 <= i < |rest| && rest[i].total > 0;
          assert files[i].total > 0;
        }
      }
      if SomeBytes(files) && files[|files| - 1].total == 0 {
        var i :| 0 <= i < |files| && files[i].total > 0;
        assert rest[i].total > 0;
      }
    }
  }

  /** The summed test holds exactly when there is something to download and
      every selected file is there in full. */
  lemma CompleteIff(files: seq<FileProgress>)
    requires Within(files)
    ensures IsComplete(SumDownloaded(files), SumTotal(files)) <==> SomeBytes(files) && AllThere(files)
  {
    SumsCompare(files);
  }
}
