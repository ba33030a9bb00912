/** The prune filter: keep exactly the entries not marked dead, in their original order. */
module Pruning {
  function KeepUnmarked<T>(s: seq<T>, dead: seq<bool>): (r: seq<T>)
    requires |s| == |dead|
    ensures |r| <= |s|
    ensures forall x :: x in r ==> x in s
  {
    if s == [] then []
    else (if dead[0] then [] else [s[0]]) + KeepUnmarked(s[1..], dead[1..])
  }

  /** Filtering a concatenation filters each part: the kept entries stay in order. */
  lemma {:induction false} KeepAppend<T>(s: seq<T>, t: seq<T>, ds: seq<bool>, dt: seq<bool>)
    requires |s| == |ds| && |t| == |dt|
    ensures KeepUnmarked(s + t, ds + dt) == KeepUnmarked(s, ds) + KeepUnmarked(t, dt)
  {
    if s != [] {
      assert (s + t)[1..] == s[1..] + t;
      assert (ds + dt)[1..] == ds[1..] + dt;
      KeepAppend(s[1..], t, ds[1..], dt);
    } else {
      assert s + t == t && ds + dt == dt;
    }
  }

  /** An entry is kept exactly when it stands at some position not marked dead. */
  lemma {:induction false} KeepMember<T>(s: seq<T>, dead: seq<bool>, x: T)
    requires |s| == |dead|
    ensures x in KeepUnmarked(s, dead) <==> exists i :: 0 <= i < |s| && s[i] == x && !dead[i]
  {
    if s != [] {
      KeepMember(s[1..], dead[1..], x);
      if x in KeepUnmarked(s[1..], dead[1..]) {
        var i :| 0 <= i < |s[1..]| && s[1..][i] == x && !dead[1..][i];
        assert s[i + 1] == x && !dead[i + 1];
      }
      if exists i :: 0 <= i < |s| && s[i] == x && !dead[i] {
        var i :| 0 <= i < |s| && s[i] == x && !dead[i];
        if i > 0 {
          assert s[1..][i - 1] == x && !dead[1..][i - 1];
        }
      }
    }
  }

  /** With nothing marked dead the filter keeps everything. */
  lemma {:induction false} KeepNoneDead<T>(s: seq<T>, dead: seq<bool>)
    requires |s| == |dead|
    requires forall i :: 0 <= i < |dead| ==> !dead[i]
    ensures KeepUnmarked(s, dead) == s
  {
    if s != [] {
      KeepNoneDead(s[1..], dead[1..]);
    }
  }

  /** Every kept entry stands at some position not marked dead. */
  lemma KeepSound<T>(s: seq<T>, dead: seq<bool>)
    requires |s| == |dead|
    ensures forall k :: 0 <= k < |KeepUnmarked(s, dead)| ==>
              exists i :: 0 <= i < |s| && s[i] == KeepUnmarked(s, dead)[k] && !dead[i]
  {
    var r := KeepUnmarked(s, dead);
    forall k | 0 <= k < |r|
      ensures exists i :: 0 <= i < |s| && s[i] == r[k] && !dead[i]
    {
      KeepMember(s, dead, r[k]);
    }
  }
}
