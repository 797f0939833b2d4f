// The agent registry: which agent owns a tool, and what the boot check makes sure of.
module Registry {
  import opened Basics

  datatype Card = Card(id: string, toolPrefixes: seq<string>)

  predicate EndsInUnderscore(s: string) {
    s != [] && s[|s| - 1] == '_'
  }

  predicate StartsWith(s: string, prefix: string) {
    prefix <= s
  }

  predicate IsExact(prefix: string, name: string) {
    !EndsInUnderscore(prefix) && prefix == name
  }

  predicate IsFamily(prefix: string, name: string) {
    EndsInUnderscore(prefix) && StartsWith(name, prefix)
  }

  predicate Claims(prefix: string, name: string) {
    if EndsInUnderscore(prefix) then StartsWith(name, prefix) else name == prefix
  }

  // --- Ownership, without regard to order ---

  /** An exact name wins over a family, a longer family over a shorter one. */
  ghost predicate Beaten(loser: string, winner: string) {
    if EndsInUnderscore(winner) then EndsInUnderscore(loser) && |loser| <= |winner| else true
  }

  /** The card claims the tool by a prefix that no claim of any card beats. */
  ghost predicate Owns(cards: seq<Card>, name: string, card: Card) {
    card in cards && exists p :: p in card.toolPrefixes && Claims(p, name) && Unbeaten(cards, name, p)
  }

  ghost predicate Unbeaten(cards: seq<Card>, name: string, p: string) {
    forall c, q :: c in cards && q in c.toolPrefixes && Claims(q, name) ==> Beaten(q, p)
  }

  ghost predicate Orphan(cards: seq<Card>, name: string) {
    forall c, q :: c in cards && q in c.toolPrefixes ==> !Claims(q, name)
  }

  ghost predicate Answers(cards: seq<Card>, name: string, owner: Option<Card>) {
    if owner.Some? then Owns(cards, name, owner.value) else Orphan(cards, name)
  }

  /** No two cards share an id or a prefix. */
  ghost predicate OwnedOnce(cards: seq<Card>) {
    forall i, j :: 0 <= i < j < |cards| ==> Apart(cards[i], cards[j])
  }

  ghost predicate Apart(c: Card, d: Card) {
    c.id != d.id && forall p :: p in c.toolPrefixes ==> p !in d.toolPrefixes
  }

  lemma OnlyOneCard(cards: seq<Card>, c: Card, d: Card, p: string)
    requires OwnedOnce(cards) && c in cards && d in cards && p in c.toolPrefixes && p in d.toolPrefixes
    ensures c == d
  {
    var i :| 0 <= i < |cards| && cards[i] == c;
    var j :| 0 <= j < |cards| && cards[j] == d;
    assert i == j;
  }

  /** Two claims on one tool that do not beat each other are one prefix. */
  lemma BestPrefixUnique(name: string, p: string, q: string)
    requires Claims(p, name) && Claims(q, name) && Beaten(p, q) && Beaten(q, p)
    ensures p == q
  {
    if EndsInUnderscore(p) { assert p == name[..|p|] && q == name[..|q|]; }
  }

  /**
   * The answer depends only on which cards there are: whatever the order of registration, two lookups of a
   * tool give the same owner.
   */
  lemma OrderIsIrrelevant(cards: seq<Card>, others: seq<Card>, name: string, a: Option<Card>, b: Option<Card>)
    requires OwnedOnce(cards) && (forall c :: c in cards <==> c in others)
    requires Answers(cards, name, a) && Answers(others, name, b)
    ensures a == b
  {
    if a.Some? && b.Some? {
      var p :| p in a.value.toolPrefixes && Claims(p, name) && Unbeaten(cards, name, p);
      var q :| q in b.value.toolPrefixes && Claims(q, name) && Unbeaten(others, name, q);
      BestPrefixUnique(name, p, q);
      OnlyOneCard(cards, a.value, b.value, p);
    }
  }

  // --- The boot check ---

  /** Every prefix with the id of the card that declares it, in the order of registration. */
  function Declared(cards: seq<Card>): seq<(string, string)> {
    if cards == [] then []
    else Declared(cards[..|cards| - 1]) + DeclaredBy(cards[|cards| - 1], |cards[|cards| - 1].toolPrefixes|)
  }

  function DeclaredBy(card: Card, n: nat): (d: seq<(string, string)>)
    requires n <= |card.toolPrefixes|
    ensures |d| == n && forall i :: 0 <= i < n ==> d[i] == (card.toolPrefixes[i], card.id)
  {
    seq(n, i requires 0 <= i < n => (card.toolPrefixes[i], card.id))
  }

  /** No prefix is declared again after an agent with a name declared it; the check overlooks the empty id. */
  ghost predicate NoPrefixTwice(declared: seq<(string, string)>) {
    forall i, j :: 0 <= i < j < |declared| && declared[i].0 == declared[j].0 ==> declared[i].1 == ""
  }

  ghost predicate CoreIsCore(cards: seq<Card>) {
    forall c :: c in cards && c.id == "core" ==> c.toolPrefixes == ["core_"]
  }

  ghost predicate BootOk(cards: seq<Card>, serverTools: seq<string>) {
    NoPrefixTwice(Declared(cards)) && CoreIsCore(cards) && forall name :: name in serverTools ==> !Orphan(cards, name)
  }

  /** Who declared each prefix last: what the check keeps while it goes through the declarations. */
  function OwnersOf(declared: seq<(string, string)>): map<string, string> {
    if declared == [] then map[]
    else
      var last := declared[|declared| - 1];
      OwnersOf(declared[..|declared| - 1])[last.0 := last.1]
  }

  lemma OwnersSnoc(declared: seq<(string, string)>, d: (string, string))
    ensures OwnersOf(declared + [d]) == OwnersOf(declared)[d.0 := d.1]
  {
    assert (declared + [d])[..|declared|] == declared;
  }

  /** Every earlier declaration of the prefix is by an agent with an empty id. */
  ghost predicate Unnamed(declared: seq<(string, string)>, p: string) {
    forall i :: 0 <= i < |declared| && declared[i].0 == p ==> declared[i].1 == ""
  }

  lemma {:induction false} OwnerTellsUnnamed(declared: seq<(string, string)>, p: string)
    requires NoPrefixTwice(declared)
    ensures Unnamed(declared, p) <==> (p in OwnersOf(declared) ==> OwnersOf(declared)[p] == "")
    decreases |declared|
  {
    if declared != [] {
      var n := |declared| - 1;
      var front := declared[..n];
      assert declared == front + [declared[n]];
      TwiceStaysTwice(front, [declared[n]]);
      assert forall i :: 0 <= i < n ==> declared[i] == front[i];
      if declared[n].0 != p { OwnerTellsUnnamed(front, p); }
    }
  }

  lemma DeclaredAgain(declared: seq<(string, string)>, d: (string, string))
    requires NoPrefixTwice(declared)
    ensures NoPrefixTwice(declared + [d]) <==> (d.0 in OwnersOf(declared) ==> OwnersOf(declared)[d.0] == "")
  {
    OwnerTellsUnnamed(declared, d.0);
    var more, n := declared + [d], |declared|;
    assert more[n] == d && forall i :: 0 <= i < n ==> more[i] == declared[i];
    assert NoPrefixTwice(more) ==> Unnamed(declared, d.0) by {
      if NoPrefixTwice(more) {
        forall i | 0 <= i < n && declared[i].0 == d.0 ensures declared[i].1 == "" { assert more[i].0 == more[n].0; }
      }
    }
  }

  lemma TwiceStaysTwice(a: seq<(string, string)>, b: seq<(string, string)>)
    requires NoPrefixTwice(a + b)
    ensures NoPrefixTwice(a)
  {
    assert forall i :: 0 <= i < |a| ==> (a + b)[i] == a[i];
  }

  /** A card with an empty id may list a prefix twice: the check passes. */
  lemma EmptyIdOverlooked(prefix: string)
    ensures BootOk([Card("", [prefix, prefix])], [])
  {
    var card := Card("", [prefix, prefix]);
    assert [card][..0] == [];
    assert Declared([card]) == Declared([]) + DeclaredBy(card, 2);
  }

  /** Among the claims on a tool there is one that none beats. */
  lemma {:induction false} BestClaimExists(cards: seq<Card>, name: string, card: Card, p: string) returns (owner: Card)
    requires card in cards && p in card.toolPrefixes && Claims(p, name)
    ensures Owns(cards, name, owner)
    decreases if EndsInUnderscore(p) then 1 + |name| - |p| else 0
  {
    if Unbeaten(cards, name, p) {
      owner := card;
    } else {
      var c, q :| c in cards && q in c.toolPrefixes && Claims(q, name) && !Beaten(q, p);
      owner := BestClaimExists(cards, name, c, q);
    }
  }

  /** Once booted, every server tool has exactly one owner, and Core owns nothing but `core_` tools. */
  lemma BootedRegistryRoutes(cards: seq<Card>, serverTools: seq<string>, name: string)
    requires OwnedOnce(cards) && BootOk(cards, serverTools)
    ensures name in serverTools ==> exists c :: Owns(cards, name, c)
    ensures forall c, d :: Owns(cards, name, c) && Owns(cards, name, d) ==> c == d
    ensures forall c :: Owns(cards, name, c) && c.id == "core" ==> StartsWith(name, "core_")
  {
    if name in serverTools {
      var c, q :| c in cards && q in c.toolPrefixes && Claims(q, name);
      var owner := BestClaimExists(cards, name, c, q);
    }
    forall c, d | Owns(cards, name, c) && Owns(cards, name, d) ensures c == d {
      OrderIsIrrelevant(cards, cards, name, Some(c), Some(d));
    }
    forall c | Owns(cards, name, c) && c.id == "core" ensures StartsWith(name, "core_") {
      var p :| p in c.toolPrefixes && Claims(p, name);
      assert c.toolPrefixes == ["core_"] && "core_"[4] == '_';
    }
  }

  class AgentRegistry {
    var cards: seq<Card>

    ghost predicate Valid()
      reads this
    {
      OwnedOnce(cards)
    }

    constructor ()
      ensures Valid() && cards == []
    {
      cards := [];
    }

    /** A card goes in unless its id or one of its prefixes is taken. */
    method RegisterAgent(card: Card) returns (ok: bool)
      requires Valid()
      modifies this
      ensures Valid()
      ensures ok <==> forall c :: c in old(cards) ==> Apart(c, card)
      ensures cards == if ok then old(cards) + [card] else old(cards)
    {
      for i := 0 to |cards|
        invariant forall k :: 0 <= k < i ==> cards[k].id != card.id
      {
        if cards[i].id == card.id {
          assert cards[i] in cards;
          return false;
        }
      }
      for i := 0 to |cards|
        invariant forall k :: 0 <= k < i ==> Apart(cards[k], card)
      {
        var existing := cards[i];
        for j := 0 to |card.toolPrefixes|
          invariant forall k :: 0 <= k < j ==> card.toolPrefixes[k] !in existing.toolPrefixes
        {
          if card.toolPrefixes[j] in existing.toolPrefixes {
            assert existing in cards && !Apart(existing, card);
            return false;
          }
        }
        assert Apart(existing, card);
      }
      cards := cards + [card];
      return true;
    }

    /** The exact owner, or else the owner of the longest family. */
    method GetAgentForTool(name: string) returns (owner: Option<Card>)
      ensures Answers(cards, name, owner)
    {
      owner := FindExact(name);
      if owner.None? { owner := FindFamily(name); }
    }

    method FindExact(name: string) returns (owner: Option<Card>)
      ensures owner.Some? ==> Owns(cards, name, owner.value)
      ensures owner.None? ==> NoExact(cards, name)
    {
      for i := 0 to |cards|
        invariant forall k :: 0 <= k < i ==> NoExactIn(cards[k].toolPrefixes, name)
      {
        for j := 0 to |cards[i].toolPrefixes|
          invariant NoExactIn(cards[i].toolPrefixes[..j], name)
        {
          var prefix := cards[i].toolPrefixes[j];
          if IsExact(prefix, name) {
            assert prefix in cards[i].toolPrefixes && Claims(prefix, name) && Unbeaten(cards, name, prefix);
            return Some(cards[i]);
          }
        }
        assert cards[i].toolPrefixes[..|cards[i].toolPrefixes|] == cards[i].toolPrefixes;
      }
      return None;
    }

    method FindFamily(name: string) returns (owner: Option<Card>)
      requires NoExact(cards, name)
      ensures Answers(cards, name, owner)
    {
      owner := None;
      ghost var best := "";
      var len: nat := 0;
      for i := 0 to |cards|
        invariant IsBest(cards, name, owner, best, len)
        invariant forall k :: 0 <= k < i ==> NoneLonger(cards[k].toolPrefixes, name, owner, len)
      {
        for j := 0 to |cards[i].toolPrefixes|
          invariant IsBest(cards, name, owner, best, len)
          invariant forall k :: 0 <= k < i ==> NoneLonger(cards[k].toolPrefixes, name, owner, len)
          invariant NoneLonger(cards[i].toolPrefixes[..j], name, owner, len)
        {
          var prefix := cards[i].toolPrefixes[j];
          if IsFamily(prefix, name) && (owner.None? || |prefix| > len) {
            owner, len, best := Some(cards[i]), |prefix|, prefix;
          }
        }
        assert cards[i].toolPrefixes[..|cards[i].toolPrefixes|] == cards[i].toolPrefixes;
      }
      LongestFamilyOwns(cards, name, owner, best, len);
    }

    method AssertRegistryInvariants(serverTools: seq<string>) returns (ok: bool)
      requires Valid()
      ensures ok <==> BootOk(cards, serverTools)
    {
      ok := PrefixesOk();
      if !ok { return; }
      for i := 0 to |cards|
        invariant forall k :: 0 <= k < i ==> cards[k].id == "core" ==> cards[k].toolPrefixes == ["core_"]
      {
        if cards[i].id == "core" && cards[i].toolPrefixes != ["core_"] {
          assert cards[i] in cards;
          return false;
        }
      }
      for i := 0 to |serverTools|
        invariant forall k :: 0 <= k < i ==> !Orphan(cards, serverTools[k])
      {
        var owned := Owned(serverTools[i]);
        if !owned { return false; }
      }
    }

    method PrefixesOk() returns (ok: bool)
      ensures ok <==> NoPrefixTwice(Declared(cards))
    {
      var owners: map<string, string> := map[];
      ok := true;
      for i := 0 to |cards|
        invariant ok && owners == OwnersOf(Declared(cards[..i])) && NoPrefixTwice(Declared(cards[..i]))
      {
        DeclaredNext(cards, i);
        ok, owners := DeclareCard(cards[i], Declared(cards[..i]), owners);
        if !ok {
          DeclaredGrows(cards, i + 1);
          return;
        }
      }
      assert cards[..|cards|] == cards;
    }

    /** The inner loop over the prefixes of one card. */
    static method DeclareCard(card: Card, ghost before: seq<(string, string)>, owners: map<string, string>)
      returns (ok: bool, owners': map<string, string>)
      requires owners == OwnersOf(before) && NoPrefixTwice(before)
      ensures var after := before + DeclaredBy(card, |card.toolPrefixes|);
              ok == NoPrefixTwice(after) && (ok ==> owners' == OwnersOf(after))
    {
      owners' := owners;
      assert before + DeclaredBy(card, 0) == before;
      for j := 0 to |card.toolPrefixes|
        invariant owners' == OwnersOf(before + DeclaredBy(card, j)) && NoPrefixTwice(before + DeclaredBy(card, j))
      {
        var p := card.toolPrefixes[j];
        DeclaredAgain(before + DeclaredBy(card, j), (p, card.id));
        OwnersSnoc(before + DeclaredBy(card, j), (p, card.id));
        DeclaredPrefixes(before, card, j);
        if p in owners' && owners'[p] != "" { return false, owners'; }
        owners' := owners'[p := card.id];
      }
      ok := true;
    }

    method Owned(name: string) returns (owned: bool)
      ensures owned <==> !Orphan(cards, name)
    {
      for i := 0 to |cards|
        invariant forall k, q :: 0 <= k < i && q in cards[k].toolPrefixes ==> !Claims(q, name)
      {
        for j := 0 to |cards[i].toolPrefixes|
          invariant forall q :: q in cards[i].toolPrefixes[..j] ==> !Claims(q, name)
        {
          if Claims(cards[i].toolPrefixes[j], name) {
            assert cards[i] in cards && cards[i].toolPrefixes[j] in cards[i].toolPrefixes;
            return true;
          }
        }
        assert cards[i].toolPrefixes[..|cards[i].toolPrefixes|] == cards[i].toolPrefixes;
      }
      return false;
    }
  }

  ghost predicate NoExactIn(prefixes: seq<string>, name: string) {
    forall q :: q in prefixes ==> !IsExact(q, name)
  }

  ghost predicate NoExact(cards: seq<Card>, name: string) {
    forall k :: 0 <= k < |cards| ==> NoExactIn(cards[k].toolPrefixes, name)
  }

  /** The family found so far is one that claims the tool. */
  ghost predicate IsBest(cards: seq<Card>, name: string, owner: Option<Card>, best: string, len: nat) {
    owner.Some? ==> owner.value in cards && best in owner.value.toolPrefixes && IsFamily(best, name) && |best| == len
  }

  ghost predicate NoneLonger(prefixes: seq<string>, name: string, owner: Option<Card>, len: nat) {
    forall q :: q in prefixes && IsFamily(q, name) ==> owner.Some? && |q| <= len
  }

  lemma LongestFamilyOwns(cards: seq<Card>, name: string, owner: Option<Card>, best: string, len: nat)
    requires NoExact(cards, name) && IsBest(cards, name, owner, best, len)
    requires forall k :: 0 <= k < |cards| ==> NoneLonger(cards[k].toolPrefixes, name, owner, len)
    ensures Answers(cards, name, owner)
  {
    forall c, q | c in cards && q in c.toolPrefixes && Claims(q, name)
      ensures owner.Some? && IsFamily(q, name) && |q| <= len
    {
      var k :| 0 <= k < |cards| && cards[k] == c;
      assert NoExactIn(cards[k].toolPrefixes, name) && NoneLonger(cards[k].toolPrefixes, name, owner, len);
    }
    if owner.Some? { assert Claims(best, name) && Unbeaten(cards, name, best); }
  }

  lemma DeclaredNext(cards: seq<Card>, i: nat)
    requires i < |cards|
    ensures Declared(cards[..i + 1]) == Declared(cards[..i]) + DeclaredBy(cards[i], |cards[i].toolPrefixes|)
  {
    assert cards[..i + 1][..i] == cards[..i];
  }

  /** One prefix more; and a prefix found twice stays found twice with the rest of the card. */
  lemma DeclaredPrefixes(before: seq<(string, string)>, card: Card, j: nat)
    requires j < |card.toolPrefixes|
    ensures before + DeclaredBy(card, j) + [(card.toolPrefixes[j], card.id)] == before + DeclaredBy(card, j + 1)
    ensures NoPrefixTwice(before + DeclaredBy(card, |card.toolPrefixes|)) ==>
      NoPrefixTwice(before + DeclaredBy(card, j + 1))
  {
    var all := DeclaredBy(card, |card.toolPrefixes|);
    assert before + all == before + DeclaredBy(card, j + 1) + all[j + 1..];
    if NoPrefixTwice(before + all) { TwiceStaysTwice(before + DeclaredBy(card, j + 1), all[j + 1..]); }
  }

  lemma {:induction false} DeclaredGrows(cards: seq<Card>, i: nat)
    requires i <= |cards| && !NoPrefixTwice(Declared(cards[..i]))
    ensures !NoPrefixTwice(Declared(cards))
    decreases |cards| - i
  {
    if i == |cards| {
      assert cards[..i] == cards;
    } else {
      DeclaredNext(cards, i);
      if NoPrefixTwice(Declared(cards[..i + 1])) {
        TwiceStaysTwice(Declared(cards[..i]), DeclaredBy(cards[i], |cards[i].toolPrefixes|));
      }
      DeclaredGrows(cards, i + 1);
    }
  }
}
