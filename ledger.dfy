/** The deployment progress ledger: the panel's `deploys` map from a deploy
    index to the progress record shown for that deployment. Records are only
    ever shallow-merged or marked deleted; this module gives the pure meaning
    of those updates, which the panel class applies to its state. */
module Ledger {
  import opened Json

  /** A progress record: the fields the deployment has reported so far. */
  type Progress = map<string, Value>

  /** The ledger: deploy index to progress record. */
  type Deploys = map<int, Progress>

  /** `updateDeployProgress(index, progress)`: an absent entry becomes exactly
      `progress`; an existing one is shallow-merged with the fields of
      `progress` taking precedence. Every other index is untouched. */
  function Merged(deploys: Deploys, index: int, progress: Progress): (d: Deploys)
    ensures d.Keys == deploys.Keys + {index}
    ensures forall i :: i in deploys && i != index ==> d[i] == deploys[i]
    ensures index !in deploys ==> d[index] == progress
    ensures index in deploys ==> d[index].Keys == deploys[index].Keys + progress.Keys
    ensures forall f :: f in progress ==> d[index][f] == progress[f]
    ensures index in deploys ==>
      forall f :: f in deploys[index] && f !in progress ==> d[index][f] == deploys[index][f]
  {
    if index !in deploys then deploys[index := progress]
    else deploys[index := deploys[index] + progress]
  }

  /** The ledger after the updates `ps` have been sent, in order, to `index`. */
  function Applied(deploys: Deploys, index: int, ps: seq<Progress>): (d: Deploys)
    ensures d.Keys == if ps == [] then deploys.Keys else deploys.Keys + {index}
    ensures forall i :: i in deploys && i != index ==> d[i] == deploys[i]
    decreases |ps|
  {
    if ps == [] then deploys
    else Merged(Applied(deploys, index, ps[..|ps| - 1]), index, ps[|ps| - 1])
  }

  /** Sending `a` and then `b` is sending `a + b`. */
  lemma {:induction false} AppliedConcat(deploys: Deploys, index: int, a: seq<Progress>, b: seq<Progress>)
    ensures Applied(deploys, index, a + b) == Applied(Applied(deploys, index, a), index, b)
    decreases |b|
  {
    if b == [] {
      assert a + b == a;
    } else {
      var b' := b[..|b| - 1];
      assert (a + b)[..|a + b| - 1] == a + b';
      assert (a + b)[|a + b| - 1] == b[|b| - 1];
      AppliedConcat(deploys, index, a, b');
    }
  }

  /** An entry that was absent ends the same whatever the rest of the
      ledger holds and whatever its index. */
  lemma {:induction false} AppliedFresh(deploys: Deploys, index: int, ps: seq<Progress>)
    requires index !in deploys && ps != []
    ensures Applied(deploys, index, ps)[index] == Applied(map[], 0, ps)[0]
    decreases |ps|
  {
    var init := ps[..|ps| - 1];
    if init != [] {
      AppliedFresh(deploys, index, init);
    }
  }

  /** The value that the last of the updates `ps` carrying the field `f`
      gives it; none when no update carries `f`. */
  function LastValue(ps: seq<Progress>, f: string): (r: Option<Value>)
    ensures r.None? <==> forall k :: 0 <= k < |ps| ==> f !in ps[k]
    decreases |ps|
  {
    if ps == [] then None
    else if f in ps[|ps| - 1] then Some(ps[|ps| - 1][f])
    else
      var r := LastValue(ps[..|ps| - 1], f);
      assert forall k :: 0 <= k < |ps| - 1 ==> ps[..|ps| - 1][k] == ps[k];
      r
  }

  /** The last value is the one of the last update that carries the field. */
  lemma {:induction false} LastValueAt(ps: seq<Progress>, f: string, j: nat)
    requires j < |ps| && f in ps[j]
    requires forall j' :: j < j' < |ps| ==> f !in ps[j']
    ensures LastValue(ps, f) == Some(ps[j][f])
    decreases |ps|
  {
    if j < |ps| - 1 {
      var init := ps[..|ps| - 1];
      assert f !in ps[|ps| - 1];
      forall j' | j < j' < |init| ensures f !in init[j'] {
        assert init[j'] == ps[j'];
      }
      LastValueAt(init, f, j);
    }
  }

  /** The last value after `a + b` is the one of `b`, or of `a` when `b`
      does not carry the field. */
  lemma {:induction false} LastValueConcat(a: seq<Progress>, b: seq<Progress>, f: string)
    ensures LastValue(a + b, f) == if LastValue(b, f).Some? then LastValue(b, f) else LastValue(a, f)
    decreases |b|
  {
    if b == [] {
      assert a + b == a;
    } else {
      assert (a + b)[..|a + b| - 1] == a + b[..|b| - 1];
      assert (a + b)[|a + b| - 1] == b[|b| - 1];
      LastValueConcat(a, b[..|b| - 1], f);
    }
  }

  /** Last write wins, field by field: after the updates `ps`, the entry
      holds each field with the value of the last update that carried it,
      and a field that no update carried keeps its presence and value from
      before. So a single-valued field such as `message` keeps no history. */
  lemma {:induction false} LastWriteWins(deploys: Deploys, index: int, ps: seq<Progress>, f: string)
    requires ps != []
    ensures index in Applied(deploys, index, ps)
    ensures var e := Applied(deploys, index, ps)[index];
      match LastValue(ps, f)
      case Some(v) => f in e && e[f] == v
      case None => (f in e <==> index in deploys && f in deploys[index]) && (f in e ==> e[f] == deploys[index][f])
    decreases |ps|
  {
    var init := ps[..|ps| - 1];
    if init != [] {
      LastWriteWins(deploys, index, init, f);
    }
  }

  /** Merging `{a: 1}` and then `{b: 2}` into an absent entry gives
      `{a: 1, b: 2}`: no field is lost. */
  lemma MergeTwo(deploys: Deploys, index: int, p1: Progress, p2: Progress, one: Value, two: Value)
    requires index !in deploys
    requires p1 == map["a" := one] && p2 == map["b" := two]
    ensures Applied(deploys, index, [p1, p2])[index] == map["a" := one, "b" := two]
  {
    assert [p1, p2][..1] == [p1] && [p1][..0] == [];
    var d1 := Applied(deploys, index, [p1]);
    assert d1 == Merged(deploys, index, p1);
    var d2 := Applied(deploys, index, [p1, p2]);
    assert d2 == Merged(d1, index, p2);
    assert d2[index] == d1[index] + p2;
  }

  /** Merging `{a: 3}` afterwards gives `{a: 3, b: 2}`. */
  lemma MergeThree(deploys: Deploys, index: int, ps: seq<Progress>, one: Value, two: Value, three: Value)
    requires index !in deploys
    requires ps == [map["a" := one], map["b" := two], map["a" := three]]
    ensures Applied(deploys, index, ps)[index] == map["a" := three, "b" := two]
  {
    assert ps[..2] == [ps[0], ps[1]];
    MergeTwo(deploys, index, ps[0], ps[1], one, two);
    Overridden(Applied(deploys, index, ps[..2])[index], one, two, three);
  }

  lemma Overridden(e: Progress, one: Value, two: Value, three: Value)
    requires e == map["a" := one, "b" := two]
    ensures e + map["a" := three] == map["a" := three, "b" := two]
  {
    assert (e + map["a" := three]).Keys == {"a", "b"};
  }

  /** `onPanelRemove(index)`: the entry is marked `deleted: true` and kept;
      its other fields and every other entry are unchanged. */
  function Dismissed(deploys: Deploys, index: int): (d: Deploys)
    requires index in deploys
    ensures d.Keys == deploys.Keys
    ensures forall i :: i in deploys && i != index ==> d[i] == deploys[i]
    ensures d[index].Keys == deploys[index].Keys + {"deleted"}
    ensures d[index]["deleted"] == Bool(true)
    ensures forall f :: f in deploys[index] && f != "deleted" ==> d[index][f] == deploys[index][f]
  {
    deploys[index := deploys[index]["deleted" := Bool(true)]]
  }
}
