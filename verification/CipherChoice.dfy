/** The server's choice of a cipher suite, with equal-preference groups (handshake_server.cc, `ssl3_choose_cipher`;
    RFC 5246, section 7.4.1.3). */
module CipherChoice {
  import opened Wrappers

  datatype Cipher = Cipher(id: nat, minVersion: nat, maxVersion: nat, mkey: bv32, auth: bv32)

  /** What the version and the server configuration allow. */
  datatype Config = Config(version: nat, maskK: bv32, maskA: bv32)

  predicate Usable(c: Cipher, config: Config) {
    c.minVersion <= config.version <= c.maxVersion && c.mkey & config.maskK != 0 && c.auth & config.maskA != 0
  }

  /** `sk_SSL_CIPHER_find`: the first place of a cipher. */
  function IndexOf(list: seq<Cipher>, c: Cipher): (r: Option<nat>)
    ensures r.Some? ==> r.value < |list| && list[r.value] == c && c !in list[..r.value]
    ensures r.None? <==> c !in list
  {
    if list == [] then None
    else if list[0] == c then Some(0)
    else match IndexOf(list[1..], c) case None => None case Some(i) => Some(i + 1)
  }

  /** The lists compared: priorities with the flags of their groups, and the other side's list. */
  datatype Lists = Lists(prio: seq<Cipher>, flags: Option<seq<nat>>, allow: seq<Cipher>)

  ghost predicate Valid(l: Lists) {
    l.flags.Some? ==>
      && |l.flags.value| == |l.prio|
      && forall i :: 0 <= i < |l.prio| ==> l.flags.value[i] == 0 || l.flags.value[i] == 1
  }

  predicate Eligible(l: Lists, config: Config, i: nat)
    requires i < |l.prio|
  {
    Usable(l.prio[i], config) && IndexOf(l.allow, l.prio[i]).Some?
  }

  /** The place of an eligible priority in the other side's list. */
  function Rank(l: Lists, config: Config, i: nat): nat
    requires i < |l.prio| && Eligible(l, config, i)
  {
    IndexOf(l.allow, l.prio[i]).value
  }

  /** Priority `i` is not the last of its group. */
  predicate Joined(l: Lists, i: nat)
    requires i < |l.prio|
  {
    l.flags.Some? && i < |l.flags.value| && l.flags.value[i] == 1
  }

  /** `k` is in the group of `i`, at or after it. */
  ghost predicate SameGroup(l: Lists, i: nat, k: nat) {
    i <= k < |l.prio| && forall j: nat :: i <= j < k ==> Joined(l, j)
  }

  /** The group of `i` has a last element. */
  ghost predicate Terminated(l: Lists, i: nat) {
    exists k: nat :: SameGroup(l, i, k) && !Joined(l, k)
  }

  ghost predicate FirstEligible(l: Lists, config: Config, i: nat) {
    i < |l.prio| && Eligible(l, config, i) && forall j: nat :: j < i ==> !Eligible(l, config, j)
  }

  /** `m` is the best rank among the eligible members of the group of `i` that lie before `end`. */
  ghost predicate IsBest(l: Lists, config: Config, i: nat, end: nat, m: nat)
    requires end <= |l.prio|
  {
    && (exists k: nat :: k < end && SameGroup(l, i, k) && Eligible(l, config, k) && Rank(l, config, k) == m)
    && (forall k: nat :: k < end && SameGroup(l, i, k) && Eligible(l, config, k) ==> m <= Rank(l, config, k))
  }

  /** The cipher is the one the other side prefers most in the first group that has any eligible cipher. */
  ghost predicate Optimal(l: Lists, config: Config, c: Cipher) {
    exists i: nat, m: nat :: FirstEligible(l, config, i) && IsBest(l, config, i, |l.prio|, m) && c == l.allow[m]
  }

  /** The loop of `ssl3_choose_cipher`. It finds the optimal cipher, and none exactly when there is no eligible one or
      all eligible ones lie in a last group that no flag ends. */
  method ChooseCipher(l: Lists, config: Config) returns (r: Option<Cipher>)
    requires Valid(l)
    ensures r.None? <==> forall i: nat :: i < |l.prio| && Eligible(l, config, i) ==> !Terminated(l, i)
    ensures r.Some? ==> Optimal(l, config, r.value)
  {
    var groupMin: Option<nat> := None;
    ghost var first: nat := 0;
    for i := 0 to |l.prio|
      invariant groupMin.None? ==> forall j: nat :: j < i ==> !Eligible(l, config, j)
      invariant groupMin.Some? ==>
                  && l.flags.Some? && FirstEligible(l, config, first) && first < i
                  && (forall j: nat :: first <= j < i ==> Joined(l, j))
                  && groupMin.value < |l.allow| && IsBest(l, config, first, i, groupMin.value)
    {
      hide Usable, IndexOf, IsBest, Optimal, Terminated;
      var c := l.prio[i];
      var found := IndexOf(l.allow, c);
      if Usable(c, config) && found.Some? {
        var index := found.value;
        assert Eligible(l, config, i) && Rank(l, config, i) == index;
        if groupMin.None? {
          first := i;
        }
        assert SameGroup(l, first, i);
        var best := if groupMin.None? || groupMin.value > index then index else groupMin.value;
        Better(l, config, first, i, groupMin, best);
        if l.flags.Some? && l.flags.value[i] == 1 {
          groupMin := Some(best);
        } else {
          Closed(l, config, first, i, best);
          return Some(l.allow[best]);
        }
      } else if groupMin.Some? {
        Unchanged(l, config, first, i, groupMin.value);
      }
      if l.flags.Some? && l.flags.value[i] == 0 && groupMin.Some? {
        Closed(l, config, first, i, groupMin.value);
        return Some(l.allow[groupMin.value]);
      }
    }
    r := None;
  }

  /** The cipher and the configuration have a version, a key exchange and an authentication in common. */
  predicate InCommon(c: Cipher, config: Config) {
    && c.minVersion <= config.version && config.version <= c.maxVersion
    && c.mkey & config.maskK != 0 && c.auth & config.maskA != 0
  }

  /** A cipher chosen is in both lists and has everything in common with the configuration; where every group ends, none
      is chosen exactly when no cipher is and has. */
  lemma ChosenMeans(l: Lists, config: Config)
    requires Valid(l)
    ensures forall c :: Optimal(l, config, c) ==> c in l.prio && c in l.allow && InCommon(c, config)
    ensures l.flags.None? || (l.prio != [] && l.flags.value[|l.prio| - 1] == 0) ==>
              ((forall i: nat :: i < |l.prio| && Eligible(l, config, i) ==> !Terminated(l, i))
               <==> forall c :: c in l.prio && c in l.allow ==> !InCommon(c, config))
  {
    EligibleMeans(l, config);
    hide Usable, InCommon, IndexOf, Terminated, Eligible, Rank;
    forall c | Optimal(l, config, c)
      ensures c in l.prio && c in l.allow && InCommon(c, config)
    {
      OptimalIsEligible(l, config, c);
    }
    if l.flags.None? || (l.prio != [] && l.flags.value[|l.prio| - 1] == 0) {
      forall i: nat | i < |l.prio|
        ensures Terminated(l, i)
      {
        GroupsEnd(l, config, i);
      }
    }
  }

  lemma EligibleMeans(l: Lists, config: Config)
    ensures forall i: nat :: i < |l.prio| ==>
              (Eligible(l, config, i) <==> l.prio[i] in l.allow && InCommon(l.prio[i], config))
  {
  }

  lemma OptimalIsEligible(l: Lists, config: Config, c: Cipher)
    requires Optimal(l, config, c)
    ensures exists k: nat :: k < |l.prio| && l.prio[k] == c && Eligible(l, config, k)
  {
    hide Usable;
    var i: nat, m: nat :| FirstEligible(l, config, i) && IsBest(l, config, i, |l.prio|, m) && c == l.allow[m];
    var k: nat :| k < |l.prio| && SameGroup(l, i, k) && Eligible(l, config, k) && Rank(l, config, k) == m;
    assert l.prio[k] == c;
  }

  lemma Better(l: Lists, config: Config, first: nat, i: nat, was: Option<nat>, best: nat)
    requires i < |l.prio| && SameGroup(l, first, i) && Eligible(l, config, i)
    requires was.None? ==> first == i
    requires was.Some? ==> IsBest(l, config, first, i, was.value)
    requires best == if was.None? || was.value > Rank(l, config, i) then Rank(l, config, i) else was.value
    ensures IsBest(l, config, first, i + 1, best)
  {
    hide Usable, IndexOf, SameGroup;
    assert forall k: nat :: SameGroup(l, first, k) ==> k >= first by {
      InGroup(l, first);
    }
    if was.Some? && best == was.value {
      var k: nat :| k < i && SameGroup(l, first, k) && Eligible(l, config, k) && Rank(l, config, k) == best;
    }
  }

  lemma InGroup(l: Lists, first: nat)
    ensures forall k: nat :: SameGroup(l, first, k) ==> k >= first
  {
  }

  lemma Unchanged(l: Lists, config: Config, first: nat, i: nat, m: nat)
    requires i < |l.prio| && !Eligible(l, config, i) && IsBest(l, config, first, i, m)
    ensures IsBest(l, config, first, i + 1, m)
  {
    hide Usable, IndexOf, SameGroup;
    var k: nat :| k < i && SameGroup(l, first, k) && Eligible(l, config, k) && Rank(l, config, k) == m;
  }

  lemma NotPastEnd(l: Lists, first: nat, i: nat, k: nat)
    requires first <= i < |l.prio| && !Joined(l, i) && SameGroup(l, first, k)
    ensures k <= i
  {
  }

  /** Where a group ends, the best so far is the best. */
  lemma Closed(l: Lists, config: Config, first: nat, i: nat, m: nat)
    requires FirstEligible(l, config, first) && SameGroup(l, first, i) && !Joined(l, i)
    requires IsBest(l, config, first, i + 1, m)
    ensures Terminated(l, first) && m < |l.allow| && Optimal(l, config, l.allow[m])
  {
    hide Usable;
    forall k: nat | SameGroup(l, first, k)
      ensures k < i + 1
    {
      NotPastEnd(l, first, i, k);
    }
    var k: nat :| k < i + 1 && SameGroup(l, first, k) && Eligible(l, config, k) && Rank(l, config, k) == m;
    assert IsBest(l, config, first, |l.prio|, m);
  }

  /** Where every group ends with flag 0, and where there are no groups, none is chosen exactly when none is
      eligible. */
  lemma GroupsEnd(l: Lists, config: Config, i: nat)
    requires Valid(l) && i < |l.prio|
    requires l.flags.Some? ==> l.flags.value[|l.prio| - 1] == 0
    ensures Terminated(l, i)
    decreases |l.prio| - i
  {
    if Joined(l, i) {
      GroupsEnd(l, config, i + 1);
      var k: nat :| SameGroup(l, i + 1, k) && !Joined(l, k);
      assert SameGroup(l, i, k);
    } else {
      assert SameGroup(l, i, i);
    }
  }

  /** Without groups the optimal cipher is the first eligible one in priority order. */
  lemma WithoutGroups(l: Lists, config: Config, c: Cipher)
    requires l.flags.None? && Optimal(l, config, c)
    ensures exists i: nat :: FirstEligible(l, config, i) && c == l.prio[i]
  {
    hide Usable;
    var i: nat, m: nat :| FirstEligible(l, config, i) && IsBest(l, config, i, |l.prio|, m) && c == l.allow[m];
    var k: nat :| k < |l.prio| && SameGroup(l, i, k) && Eligible(l, config, k) && Rank(l, config, k) == m;
    NotPastEnd(l, i, i, k);
    assert c == l.prio[i];
  }
}
