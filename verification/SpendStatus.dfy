/** The status of a partially signed spend (liana/src/spend.rs, `SpendStatus::from_signatures`). */
module SpendStatus {
  import opened Wrappers

  datatype Status = Unsigned | Timelocked | Broadcastable

  datatype PathInfo = PathInfo(threshold: nat, sigs: nat)

  datatype Recovery = Recovery(timelock: nat, path: PathInfo)

  /** Recovery paths are kept in a map ordered by timelock. */
  predicate Ascending(paths: seq<Recovery>) {
    forall i, j :: 0 <= i < j < |paths| ==> paths[i].timelock < paths[j].timelock
  }

  type RecoveryPaths = paths: seq<Recovery> | Ascending(paths)

  datatype SpendInfo = SpendInfo(primary: PathInfo, recovery: RecoveryPaths)

  predicate Signed(path: PathInfo) {
    path.sigs >= path.threshold
  }

  /** The first signed path in timelock order. */
  function FirstSigned(paths: seq<Recovery>): Option<Recovery> {
    if paths == [] then None
    else if Signed(paths[0].path) then Some(paths[0])
    else FirstSigned(paths[1..])
  }

  /** A transaction in the next block could use this timelock for every coin. */
  predicate Matured(timelock: nat, heights: seq<Option<int>>, tip: int) {
    forall i :: 0 <= i < |heights| ==> heights[i].Some? && tip + 1 >= heights[i].value + timelock
  }

  function FromSignatures(info: SpendInfo, heights: seq<Option<int>>, tip: int): Status {
    if Signed(info.primary) then Broadcastable
    else match FirstSigned(info.recovery)
      case None => Unsigned
      case Some(r) => if Matured(r.timelock, heights, tip) then Broadcastable else Timelocked
  }

  predicate IsSignedAt(paths: seq<Recovery>, i: int) {
    0 <= i < |paths| && Signed(paths[i].path)
  }

  lemma {:induction false} FirstSignedLaw(paths: seq<Recovery>)
    requires Ascending(paths)
    ensures FirstSigned(paths).None? <==> forall i :: !IsSignedAt(paths, i)
    ensures FirstSigned(paths).Some? ==>
              (exists i :: IsSignedAt(paths, i) && paths[i] == FirstSigned(paths).value)
              && forall i :: IsSignedAt(paths, i) ==> FirstSigned(paths).value.timelock <= paths[i].timelock
  {
    if paths != [] {
      var rest := paths[1..];
      FirstSignedLaw(rest);
      forall i ensures IsSignedAt(paths, i) <==> (i == 0 && Signed(paths[0].path)) || IsSignedAt(rest, i - 1) {
      }
      if Signed(paths[0].path) {
        assert IsSignedAt(paths, 0);
      } else if FirstSigned(rest).Some? {
        var i :| IsSignedAt(rest, i) && rest[i] == FirstSigned(rest).value;
        assert IsSignedAt(paths, i + 1) && paths[i + 1] == rest[i];
        forall j | IsSignedAt(paths, j) ensures FirstSigned(rest).value.timelock <= paths[j].timelock {
          assert IsSignedAt(rest, j - 1) && paths[j] == rest[j - 1];
        }
      } else {
        forall i ensures !IsSignedAt(paths, i) {
          assert !IsSignedAt(rest, i - 1);
        }
      }
    }
  }

  /** Some signed path can be used by the next block. */
  ghost predicate SomeUsable(info: SpendInfo, heights: seq<Option<int>>, tip: int) {
    exists i :: IsSignedAt(info.recovery, i) && Matured(info.recovery[i].timelock, heights, tip)
  }

  /**
   Looking only at the first signed recovery path is enough: the spend is broadcastable
   exactly when the primary path is signed or some signed recovery path has matured.
   */
  lemma BroadcastableIff(info: SpendInfo, heights: seq<Option<int>>, tip: int)
    ensures FromSignatures(info, heights, tip) == Broadcastable
            <==> Signed(info.primary) || SomeUsable(info, heights, tip)
    ensures FromSignatures(info, heights, tip) == Unsigned
            <==> !Signed(info.primary) && forall i :: !IsSignedAt(info.recovery, i)
  {
    FirstSignedLaw(info.recovery);
    hide FirstSigned;
    var first := FirstSigned(info.recovery);
    if first.Some? {
      var i :| IsSignedAt(info.recovery, i) && info.recovery[i] == first.value;
      if SomeUsable(info, heights, tip) {
        var j :| IsSignedAt(info.recovery, j) && Matured(info.recovery[j].timelock, heights, tip);
        assert Matured(first.value.timelock, heights, tip);
      }
    }
  }

  function Rank(status: Status): nat {
    match status
    case Unsigned => 0
    case Timelocked => 1
    case Broadcastable => 2
  }

  /** The same paths, each with at least the signatures it had. */
  predicate MoreSigned(before: SpendInfo, after: SpendInfo) {
    after.primary.threshold == before.primary.threshold && after.primary.sigs >= before.primary.sigs
    && |after.recovery| == |before.recovery|
    && forall i :: 0 <= i < |before.recovery| ==>
         after.recovery[i].timelock == before.recovery[i].timelock
         && after.recovery[i].path.threshold == before.recovery[i].path.threshold
         && after.recovery[i].path.sigs >= before.recovery[i].path.sigs
  }

  /** Signing and new blocks never lower the status. */
  lemma StatusNeverDrops(before: SpendInfo, after: SpendInfo, heights: seq<Option<int>>, tip: int, tip': int)
    requires MoreSigned(before, after) && tip <= tip'
    ensures Rank(FromSignatures(before, heights, tip)) <= Rank(FromSignatures(after, heights, tip'))
  {
    BroadcastableIff(before, heights, tip);
    BroadcastableIff(after, heights, tip');
    hide FromSignatures;
    if i :| IsSignedAt(before.recovery, i) {
      assert IsSignedAt(after.recovery, i);
    }
    if SomeUsable(before, heights, tip) {
      var i :| IsSignedAt(before.recovery, i) && Matured(before.recovery[i].timelock, heights, tip);
      assert IsSignedAt(after.recovery, i) && Matured(after.recovery[i].timelock, heights, tip');
    }
  }
}
