/** Counting the set flags of a sequence, as sum() over booleans does, and the octaves of six bands. */
module Tallies {

  function Tally(flags: seq<bool>): nat {
    if flags == [] then 0 else Tally(flags[..|flags| - 1]) + if flags[|flags| - 1] then 1 else 0
  }

  /** Positions of set flags, from left to right. */
  ghost predicate Places(flags: seq<bool>, at: seq<nat>) {
    && (forall k :: 0 <= k < |at| ==> at[k] < |flags| && flags[at[k]])
    && (forall j, k :: 0 <= j < k < |at| ==> at[j] < at[k])
  }

  lemma {:induction false} FindPlaces(flags: seq<bool>, n: nat) returns (at: seq<nat>)
    requires Tally(flags) >= n
    ensures Places(flags, at) && |at| == n
  {
    if n == 0 {
      at := [];
    } else {
      var last := |flags| - 1;
      if flags[last] {
        at := FindPlaces(flags[..last], n - 1);
        at := at + [last];
      } else {
        at := FindPlaces(flags[..last], n);
      }
    }
  }

  lemma {:induction false} PlacesCount(flags: seq<bool>, at: seq<nat>)
    requires Places(flags, at)
    ensures Tally(flags) >= |at|
  {
    if at != [] {
      var last, end := |flags| - 1, |at| - 1;
      assert at[end] <= last;
      if at[end] == last {
        PlacesCount(flags[..last], at[..end]);
      } else {
        PlacesCount(flags[..last], at);
      }
    }
  }

  /** The count is at least n exactly when n different flags are set. */
  lemma TallyIff(flags: seq<bool>, n: nat)
    ensures Tally(flags) >= n <==> exists at :: |at| == n && Places(flags, at)
  {
    if Tally(flags) >= n { var at := FindPlaces(flags, n); }
    if at: seq<nat> :| |at| == n && Places(flags, at) { PlacesCount(flags, at); }
  }

  ghost predicate TwoOf(flags: seq<bool>) {
    exists i, j :: 0 <= i < j < |flags| && flags[i] && flags[j]
  }

  ghost predicate ThreeOf(flags: seq<bool>) {
    exists i, j, k :: 0 <= i < j < k < |flags| && flags[i] && flags[j] && flags[k]
  }

  ghost predicate FourOf(flags: seq<bool>) {
    exists i, j, k, l :: 0 <= i < j < k < l < |flags| && flags[i] && flags[j] && flags[k] && flags[l]
  }

  lemma TallyTwo(flags: seq<bool>)
    ensures Tally(flags) >= 2 <==> TwoOf(flags)
  {
    hide Tally;
    TallyIff(flags, 2);
    if i: nat, j: nat :| i < j < |flags| && flags[i] && flags[j] { assert Places(flags, [i, j]); }
    if at: seq<nat> :| |at| == 2 && Places(flags, at) { assert at[0] < at[1]; }
  }

  lemma TallyThree(flags: seq<bool>)
    ensures Tally(flags) >= 3 <==> ThreeOf(flags)
  {
    hide Tally;
    TallyIff(flags, 3);
    if i: nat, j: nat, k: nat :| i < j < k < |flags| && flags[i] && flags[j] && flags[k] {
      assert Places(flags, [i, j, k]);
    }
    if at: seq<nat> :| |at| == 3 && Places(flags, at) { assert at[0] < at[1] < at[2]; }
  }

  lemma TallyFour(flags: seq<bool>)
    ensures Tally(flags) >= 4 <==> FourOf(flags)
  {
    hide Tally;
    TallyIff(flags, 4);
    hide Places;
    if i: nat, j: nat, k: nat, l: nat :|
      i < j < k < l < |flags| && flags[i] && flags[j] && flags[k] && flags[l] {
      FourPlaces(flags, i, j, k, l);
    }
    if at: seq<nat> :| |at| == 4 && Places(flags, at) { PlacesFour(flags, at); }
  }

  lemma FourPlaces(flags: seq<bool>, i: nat, j: nat, k: nat, l: nat)
    requires i < j < k < l < |flags| && flags[i] && flags[j] && flags[k] && flags[l]
    ensures Places(flags, [i, j, k, l])
  {
  }

  lemma PlacesFour(flags: seq<bool>, at: seq<nat>)
    requires |at| == 4 && Places(flags, at)
    ensures FourOf(flags)
  {
    assert at[0] < at[1] < at[2] < at[3];
    assert flags[at[0]] && flags[at[1]] && flags[at[2]] && flags[at[3]];
  }

  /** Setting further flags loses none of the count. */
  lemma {:induction false} TallyGrows(a: seq<bool>, b: seq<bool>)
    requires |a| == |b| && forall i :: 0 <= i < |a| ==> a[i] ==> b[i]
    ensures Tally(a) <= Tally(b)
  {
    if a != [] { TallyGrows(a[..|a| - 1], b[..|b| - 1]); }
  }

  /** Of six bands, two to an octave: the first, the second and the third octave each have one. */
  ghost predicate EachOctave(strong: seq<bool>)
    requires |strong| == 6
  {
    exists a, b, c ::
      && 0 <= a < 6 && strong[a] && 0 <= b < 6 && strong[b] && 0 <= c < 6 && strong[c]
      && a / 2 == 0 && b / 2 == 1 && c / 2 == 2
  }

  lemma OctavesPaired(s: seq<bool>)
    requires |s| == 6
    ensures EachOctave(s) <==> (s[0] || s[1]) && (s[2] || s[3]) && (s[4] || s[5])
  {
    if (s[0] || s[1]) && (s[2] || s[3]) && (s[4] || s[5]) {
      var a, b, c := if s[0] then 0 else 1, if s[2] then 2 else 3, if s[4] then 4 else 5;
      assert s[a] && s[b] && s[c];
    }
  }
}
