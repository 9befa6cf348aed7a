/** Waiting until a directory has stopped changing before it is scanned. */
module Debounce {
  import opened Text
  import opened Episodes

  /** The total size and the latest change of what is there, or that nothing is. */
  datatype Look = Gone | Signature(size: nat, latest: int)

  const Nothing := Signature(0, 0)

  /** What is done once nothing changes any more. */
  datatype Action = ScanDirectory | ScanFolder | LeaveIt

  datatype Verdict = Settled(looks: nat, action: Action) | Removed(looks: nat) | StillWaiting

  /** What has settled is a directory, or a loose file; of the loose files only the videos of
      a download folder are grouped into a directory, by a scan of the whole folder. */
  function ActionFor(isFile: bool, isDownload: bool, name: string): Action {
    if !isFile then ScanDirectory else if isDownload && HasVideoExtension(name) then ScanFolder else LeaveIt
  }

  /** The last look and the `checks` before it all show the same, and something; where no
      row of looks is asked for, none is needed. */
  predicate Stable(looks: seq<Look>, k: nat, checks: int)
    requires k <= |looks|
  {
    || checks <= 0
    || (checks < k && looks[k - 1] != Nothing && forall j | k - 1 - checks <= j < k :: looks[j] == looks[k - 1])
  }

  /** The last look and exactly the `row` before it show the same. */
  predicate IsRow(looks: seq<Look>, k: nat, row: int)
    requires 0 < k <= |looks|
  {
    && 0 <= row < k
    && (forall j | k - 1 - row <= j < k :: looks[j] == looks[k - 1])
    && (row < k - 1 ==> looks[k - 2 - row] != looks[k - 1])
  }

  lemma StableIff(looks: seq<Look>, k: nat, row: int, checks: int)
    requires 0 < k <= |looks| && 0 < checks && IsRow(looks, k, row)
    ensures Stable(looks, k, checks) <==> looks[k - 1] != Nothing && checks <= row
  {
  }

  lemma NothingSeen(looks: seq<Look>, checks: int)
    ensures Stable(looks, 0, checks) <==> checks <= 0
  {
  }

  lemma FirstRow(looks: seq<Look>)
    requires looks != []
    ensures IsRow(looks, 1, 0)
  {
  }

  lemma RowGoesOn(looks: seq<Look>, k: nat, row: int)
    requires 0 < k < |looks| && IsRow(looks, k, row)
    ensures looks[k] == looks[k - 1] ==> IsRow(looks, k + 1, row + 1)
    ensures looks[k] != looks[k - 1] ==> IsRow(looks, k + 1, 0)
  {
  }

  /** `_stabilize_and_process`, on the looks taken until it stops or is cancelled. It acts
      at the first moment the place has shown the same, and not nothing, for a whole row of
      looks; and it gives up at the first look that finds it gone. */
  method StabilizeAndProcess(looks: seq<Look>, checks: int, isFile: bool, isDownload: bool, name: string) returns (verdict: Verdict)
    ensures match verdict
      case Settled(k, action) =>
        && k <= |looks| && Stable(looks, k, checks) && (forall i | 0 <= i < k :: looks[i] != Gone && !Stable(looks, i, checks))
        && (action == ScanDirectory <==> !isFile) && (action == ScanFolder <==> isFile && isDownload && HasVideoExtension(name))
      case Removed(k) => 0 < k <= |looks| && looks[k - 1] == Gone && forall i | 0 <= i < k :: (i < k - 1 ==> looks[i] != Gone) && !Stable(looks, i, checks)
      case StillWaiting => forall i | 0 <= i <= |looks| :: (i < |looks| ==> looks[i] != Gone) && !Stable(looks, i, checks)
  {
    hide HasVideoExtension, Stable, IsRow;
    var last: Option<Look> := None;
    var stable := 0;
    var k := 0;
    ghost var row := 0;
    NothingSeen(looks, checks);
    while stable < checks
      invariant k <= |looks|
      invariant last == if k == 0 then None else Some(looks[k - 1])
      invariant if k == 0 then stable == 0 else IsRow(looks, k, row) && stable == if looks[k - 1] == Nothing then 0 else row
      invariant forall i | 0 <= i < k :: looks[i] != Gone && !Stable(looks, i, checks)
      invariant Stable(looks, k, checks) <==> checks <= stable
      decreases |looks| - k
    {
      if k == |looks| {
        return StillWaiting;
      }
      if looks[k] == Gone {
        return Removed(k + 1);
      }
      if k == 0 { FirstRow(looks); } else { RowGoesOn(looks, k, row); }
      row := if last == Some(looks[k]) then row + 1 else 0;
      if last == Some(looks[k]) && looks[k] != Nothing {
        stable := stable + 1;
      } else {
        stable := 0;
        last := Some(looks[k]);
      }
      k := k + 1;
      StableIff(looks, k, row, checks);
    }
    return Settled(k, ActionFor(isFile, isDownload, name));
  }
}
