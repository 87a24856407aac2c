/**
  Claim lifetime tokens as a step relation. setPreparedClaims swaps the prepared claims one token at a time, and
  the metrics readers take no lock, so every step below is visible to them
  (cmd/ascend-dra-kubeletplugin/state.go and metrics.go).
*/
module TokenProtocol {
  import opened Wrappers
  import opened CoreEnv
  import opened MonitorTypes

  /** What the checkpoint holds for a claim: a nil list, treated as not prepared, or its devices. */
  datatype Entry = Nil | Devices(devices: seq<PreparedDevice>)

  type Claims = map<string, Entry>

  predicate Has(claims: Claims, uid: string) {
    uid in claims && claims[uid].Devices?
  }

  /** `swap` is the map being published while setPreparedClaims runs; None between calls. */
  datatype Tokens = Tokens(prepared: Claims, table: map<string, nat>, next: nat, swap: Option<Claims>)

  const START := Tokens(map[], map[], 0, None)

  /** metricsGeneration: zero means no prepared lifetime. */
  function Read(s: Tokens, uid: string): nat {
    if uid in s.table then s.table[uid] else 0
  }

  // ---- Steps ----

  predicate Begin(s: Tokens, s': Tokens) {
    s.swap.None? && s'.swap.Some? && s' == s.(swap := s'.swap)
  }

  /** One iteration of the first loop that deletes a token. */
  predicate Drop(s: Tokens, s': Tokens, uid: string) {
    s.swap.Some? && uid in s.table && Has(s.prepared, uid) && !Has(s.swap.value, uid)
    && s' == s.(table := s.table - {uid})
  }

  /** One iteration of the second loop that stores a token; the first loop has ended. */
  ghost predicate Mint(s: Tokens, s': Tokens, uid: string) {
    s.swap.Some? && uid !in s.table && !Has(s.prepared, uid) && Has(s.swap.value, uid)
    && (forall u :: u in s.table ==> Has(s.swap.value, u))
    && s' == s.(next := s.next + 1, table := s.table[uid := s.next + 1])
  }

  ghost predicate Commit(s: Tokens, s': Tokens) {
    s.swap.Some? && (forall u :: u in s.table <==> Has(s.swap.value, u))
    && s' == s.(prepared := s.swap.value, swap := None)
  }

  ghost predicate Next(s: Tokens, s': Tokens) {
    Begin(s, s') || Commit(s, s') || exists uid :: Drop(s, s', uid) || Mint(s, s', uid)
  }

  /** A history of the token table from the start of the process. */
  ghost predicate Run(hist: seq<Tokens>) {
    hist != [] && hist[0] == START
    && forall k :: 0 <= k < |hist| - 1 ==> Next(hist[k], hist[k + 1])
  }

  function Now(hist: seq<Tokens>): Tokens
    requires hist != []
  {
    hist[|hist| - 1]
  }

  lemma Extend(hist: seq<Tokens>, s: Tokens)
    requires Run(hist) && Next(Now(hist), s)
    ensures Run(hist + [s])
  {
    var more := hist + [s];
    forall k | 0 <= k < |more| - 1 ensures Next(more[k], more[k + 1]) {
      assert k < |hist| - 1 ==> more[k + 1] == hist[k + 1];
    }
  }

  // ---- What holds in every state ----

  ghost predicate TokensDistinct(s: Tokens) {
    (forall u :: u in s.table ==> 1 <= s.table[u] <= s.next)
    && forall u, v :: u in s.table && v in s.table && u != v ==> s.table[u] != s.table[v]
  }

  /** Between calls the table names exactly the prepared claims; during one it is on its way. */
  ghost predicate TableExact(s: Tokens) {
    match s.swap
    case None => forall u :: u in s.table <==> Has(s.prepared, u)
    case Some(claims) =>
      (forall u :: Has(s.prepared, u) && Has(claims, u) ==> u in s.table)
      && forall u :: u in s.table ==> Has(s.prepared, u) || Has(claims, u)
  }

  ghost predicate Inv(s: Tokens) {
    TokensDistinct(s) && TableExact(s)
  }

  /** In every state of every run tokens are positive, distinct and at most the counter, and the table is exact. */
  lemma {:induction false} RunInv(hist: seq<Tokens>, k: nat)
    requires Run(hist) && k < |hist|
    ensures Inv(hist[k])
  {
    if k > 0 {
      RunInv(hist, k - 1);
    }
  }

  // ---- No token comes back ----

  /** Past its minting a token that a claim does not have stays away from it. */
  lemma {:induction false} TokenStaysAway(hist: seq<Tokens>, i: nat, j: nat, uid: string, g: nat)
    requires Run(hist) && i <= j < |hist|
    requires 0 < g <= hist[i].next && Read(hist[i], uid) != g
    ensures g <= hist[j].next && Read(hist[j], uid) != g
  {
    if i < j {
      TokenStaysAway(hist, i, j - 1, uid, g);
      assert Next(hist[j - 1], hist[j]);
    }
  }

  ghost predicate Unbroken(hist: seq<Tokens>, i: int, j: int, uid: string, g: nat) {
    0 <= i <= j < |hist| && forall k :: i <= k <= j ==> Read(hist[k], uid) == g
  }

  /** No ABA: a claim with the same token at two moments has had it at every moment between. */
  lemma SameTokenIsUnbroken(hist: seq<Tokens>, i: nat, j: nat, uid: string, g: nat)
    requires Run(hist) && i <= j < |hist| && g != 0
    requires Read(hist[i], uid) == g && Read(hist[j], uid) == g
    ensures Unbroken(hist, i, j, uid, g)
  {
    RunInv(hist, i);
    forall k | i <= k <= j ensures Read(hist[k], uid) == g {
      if Read(hist[k], uid) != g {
        CounterGrows(hist, i, k);
        TokenStaysAway(hist, k, j, uid, g);
      }
    }
  }

  lemma {:induction false} CounterGrows(hist: seq<Tokens>, i: nat, j: nat)
    requires Run(hist) && i <= j < |hist|
    ensures hist[i].next <= hist[j].next
  {
    if i < j {
      CounterGrows(hist, i, j - 1);
      assert Next(hist[j - 1], hist[j]);
    }
  }

  /** A token belongs to one claim for the whole life of the process. */
  lemma TokenNamesOneClaim(hist: seq<Tokens>, i: nat, j: nat, u: string, v: string)
    requires Run(hist) && i < |hist| && j < |hist|
    requires Read(hist[i], u) != 0 && Read(hist[i], u) == Read(hist[j], v)
    ensures u == v
  {
    var g := Read(hist[i], u);
    RunInv(hist, i);
    RunInv(hist, j);
    if u != v {
      if i <= j {
        TokenStaysAway(hist, i, j, v, g);
      } else {
        TokenStaysAway(hist, j, i, u, g);
      }
    }
  }

  /** While no swap is under way an unbroken token means a prepared claim. */
  lemma UnbrokenMeansPrepared(hist: seq<Tokens>, i: int, j: int, uid: string, g: nat)
    requires Run(hist) && Unbroken(hist, i, j, uid, g) && g != 0
    ensures forall k :: i <= k <= j && hist[k].swap.None? ==> Has(hist[k].prepared, uid)
  {
    forall k | i <= k <= j && hist[k].swap.None? ensures Has(hist[k].prepared, uid) {
      RunInv(hist, k);
      assert Read(hist[k], uid) == g;
    }
  }

  // ---- Snapshots ----

  /** A metrics snapshot of the state `s`: no swap is under way, and every domain carries its claim's token. */
  ghost predicate Snapped(s: Tokens, domains: seq<Domain>) {
    s.swap.None?
    && forall d :: d in domains ==>
      Has(s.prepared, d.claimUID) && d.generation == Read(s, d.claimUID) && d.generation != 0
  }

  // ---- What one whole call of setPreparedClaims does ----

  /** The claims a call newly prepares. */
  function Newly(prepared: Claims, claims: Claims): set<string> {
    set u | u in claims && Has(claims, u) && !Has(prepared, u)
  }

  /** The table after publishing `claims`: kept tokens are kept, new ones are new, one count each. */
  ghost predicate Published(s: Tokens, claims: Claims, s': Tokens) {
    s'.prepared == claims && s'.swap.None? && s'.next == s.next + |Newly(s.prepared, claims)| && TokensDistinct(s')
    && (forall u :: u in s'.table <==> Has(claims, u))
    && (forall u :: Has(claims, u) && Has(s.prepared, u) ==> s'.table[u] == Read(s, u))
    && (forall u :: Has(claims, u) && !Has(s.prepared, u) ==> s.next < s'.table[u] <= s'.next)
  }

  /** Publishing a map that agrees on who is prepared changes no token. */
  lemma SameMembersKeepTable(s: Tokens, claims: Claims, s': Tokens)
    requires Inv(s) && s.swap.None? && Published(s, claims, s')
    requires forall u :: Has(claims, u) <==> Has(s.prepared, u)
    ensures s'.table == s.table && s'.next == s.next
  {
    assert Newly(s.prepared, claims) == {};
  }

  /** Publishing a map that differs at one claim changes the table there and nowhere else. */
  lemma OneMemberChanges(s: Tokens, claims: Claims, s': Tokens, uid: string)
    requires Inv(s) && s.swap.None? && Published(s, claims, s')
    requires forall u :: u != uid ==> (Has(claims, u) <==> Has(s.prepared, u))
    ensures forall u :: u != uid ==> Read(s', u) == Read(s, u)
    ensures !Has(claims, uid) ==> s'.table == s.table - {uid} && s'.next == s.next
    ensures Has(claims, uid) && !Has(s.prepared, uid) ==>
              s'.table == s.table[uid := s.next + 1] && s'.next == s.next + 1
  {
    assert Newly(s.prepared, claims) == if Has(claims, uid) && !Has(s.prepared, uid) then {uid} else {};
    if !Has(claims, uid) {
      OneLeaves(s, claims, s', uid);
    } else if !Has(s.prepared, uid) {
      OneJoins(s, claims, s', uid);
    }
  }

  lemma OneLeaves(s: Tokens, claims: Claims, s': Tokens, uid: string)
    requires TableExact(s) && s.swap.None? && Published(s, claims, s') && !Has(claims, uid)
    requires forall u :: u != uid ==> (Has(claims, u) <==> Has(s.prepared, u))
    ensures s'.table == s.table - {uid}
  {
  }

  lemma OneJoins(s: Tokens, claims: Claims, s': Tokens, uid: string)
    requires TableExact(s) && s.swap.None? && Published(s, claims, s') && Has(claims, uid) && !Has(s.prepared, uid)
    requires Newly(s.prepared, claims) == {uid}
    requires forall u :: u != uid ==> (Has(claims, u) <==> Has(s.prepared, u))
    ensures s'.table == s.table[uid := s.next + 1]
  {
  }
}
