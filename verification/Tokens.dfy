/**
 Fungible tokens as EIP-20 describes them ("Methods" in its Specification
 section), with unbounded allowances written as the largest uint256, and the
 measures on them that the safety proofs use: supply and free balance.
 */
module Tokens {
  import opened Wrappers

  type Address = nat

  const UINT_MAX: nat := 0xFFFF_FFFF_FFFF_FFFF_FFFF_FFFF_FFFF_FFFF_FFFF_FFFF_FFFF_FFFF_FFFF_FFFF_FFFF_FFFF

  // ---------- Sums over finite maps ----------

  function Get(m: map<Address, nat>, a: Address): nat {
    if a in m then m[a] else 0
  }

  ghost function Sum(m: map<Address, nat>): nat {
    if m == map[] then 0 else
    var a :| a in m;
    m[a] + Sum(m - {a})
  }

  lemma {:induction false} SumRemove(m: map<Address, nat>, a: Address)
    requires a in m
    ensures Sum(m) == m[a] + Sum(m - {a})
    decreases |m|
  {
    var b :| b in m && Sum(m) == m[b] + Sum(m - {b});
    if a != b {
      SumRemove(m - {b}, a);
      SumRemove(m - {a}, b);
      assert m - {a} - {b} == m - {b} - {a};
    }
  }

  lemma SumUpdate(m: map<Address, nat>, a: Address, v: nat)
    ensures Sum(m[a := v]) == Sum(m) - Get(m, a) + v
    ensures Get(m, a) <= Sum(m)
  {
    SumRemove(m[a := v], a);
    if a in m {
      SumRemove(m, a);
      assert m[a := v] - {a} == m - {a};
    } else {
      assert m[a := v] - {a} == m;
    }
  }

  /** A map that is pointwise no larger has no larger a sum. */
  lemma {:induction false} SumMonotone(m: map<Address, nat>, n: map<Address, nat>)
    requires forall a :: Get(m, a) <= Get(n, a)
    ensures Sum(m) <= Sum(n)
    decreases |m|
  {
    if m != map[] {
      var a :| a in m;
      SumRemove(m, a);
      var rest := n[a := 0];
      SumUpdate(n, a, 0);
      forall b ensures Get(m - {a}, b) <= Get(rest, b) {
        assert Get(m, b) <= Get(n, b);
      }
      SumMonotone(m - {a}, rest);
      assert Get(m, a) <= Get(n, a);
    }
  }

  // ---------- One token ----------

  datatype Token = Token(balances: map<Address, nat>, allowances: map<Address, map<Address, nat>>) {

    function BalanceOf(a: Address): nat {
      Get(balances, a)
    }

    function AllowancesOf(owner: Address): map<Address, nat> {
      if owner in allowances then allowances[owner] else map[]
    }

    function Allowance(owner: Address, spender: Address): nat {
      Get(AllowancesOf(owner), spender)
    }

    function Transfer(from: Address, to: Address, v: nat): Option<Token> {
      if BalanceOf(from) < v then None else
      var debited := balances[from := BalanceOf(from) - v];
      Some(this.(balances := debited[to := Get(debited, to) + v]))
    }

    function Approve(owner: Address, spender: Address, v: nat): Token {
      this.(allowances := allowances[owner := AllowancesOf(owner)[spender := v]])
    }

    function TransferFrom(spender: Address, from: Address, to: Address, v: nat): Option<Token> {
      var allowed := Allowance(from, spender);
      if allowed < v then None
      else if allowed == UINT_MAX then Transfer(from, to, v)
      else Approve(from, spender, allowed - v).Transfer(from, to, v)
    }

    ghost function Supply(): nat {
      Sum(balances)
    }

    /** What `a` holds beyond everything it has let others spend. */
    ghost function Free(a: Address): int {
      BalanceOf(a) - Sum(AllowancesOf(a))
    }
  }

  lemma TransferFacts(t: Token, from: Address, to: Address, v: nat)
    requires t.Transfer(from, to, v).Some?
    ensures var t' := t.Transfer(from, to, v).value;
      && t'.Supply() == t.Supply()
      && t'.allowances == t.allowances
      && forall a :: t'.BalanceOf(a) == t.BalanceOf(a)
                     - (if a == from then v else 0) + (if a == to then v else 0)
  {
    var debited := t.balances[from := t.BalanceOf(from) - v];
    SumUpdate(t.balances, from, t.BalanceOf(from) - v);
    SumUpdate(debited, to, Get(debited, to) + v);
  }

  lemma ApproveFacts(t: Token, owner: Address, spender: Address, v: nat)
    ensures var t' := t.Approve(owner, spender, v);
      && t'.balances == t.balances
      && (forall o, s :: t'.Allowance(o, s) == if o == owner && s == spender then v else t.Allowance(o, s))
      && Sum(t'.AllowancesOf(owner)) == Sum(t.AllowancesOf(owner)) - t.Allowance(owner, spender) + v
      && forall o :: o != owner ==> t'.AllowancesOf(o) == t.AllowancesOf(o)
  {
    SumUpdate(t.AllowancesOf(owner), spender, v);
  }

  lemma BalanceWithinSupply(t: Token, a: Address)
    ensures t.BalanceOf(a) <= t.Supply()
  {
    SumUpdate(t.balances, a, 0);
  }

  // ---------- What others can do to one holder ----------

  /** No allowance given by `a` is the unlimited one. */
  ghost predicate FiniteAllowances(t: Token, a: Address) {
    forall s :: t.Allowance(a, s) < UINT_MAX
  }

  /** The change from `t` to `u` is one that others can make to `a`'s holdings. */
  ghost predicate ByOthers(a: Address, t: Token, u: Token) {
    && u.Supply() == t.Supply()
    && u.Free(a) >= t.Free(a)
    && forall s :: u.Allowance(a, s) <= t.Allowance(a, s)
  }

  lemma TransferByOther(t: Token, a: Address, actor: Address, to: Address, v: nat)
    requires actor != a && t.Transfer(actor, to, v).Some?
    ensures ByOthers(a, t, t.Transfer(actor, to, v).value)
  {
    TransferFacts(t, actor, to, v);
  }

  lemma ApproveByOther(t: Token, a: Address, actor: Address, spender: Address, v: nat)
    requires actor != a
    ensures ByOthers(a, t, t.Approve(actor, spender, v))
  {
  }

  /** Spending an allowance costs the holder no more than the allowance shrinks. */
  lemma TransferFromByOther(t: Token, a: Address, actor: Address, from: Address, to: Address, v: nat)
    requires actor != a && FiniteAllowances(t, a)
    requires t.TransferFrom(actor, from, to, v).Some?
    ensures ByOthers(a, t, t.TransferFrom(actor, from, to, v).value)
  {
    hide Sum, Token.Transfer, Token.Approve;
    var allowed := t.Allowance(from, actor);
    if allowed == UINT_MAX {
      assert from != a by {
        assert t.Allowance(a, actor) < UINT_MAX;
      }
      TransferFacts(t, from, to, v);
    } else {
      var u := t.Approve(from, actor, allowed - v);
      ApproveFacts(t, from, actor, allowed - v);
      TransferFacts(u, from, to, v);
    }
  }

  // ---------- All tokens ----------

  /** Every deployed token, by its address; a call to any other address reverts. */
  type Ledger = map<Address, Token>

  function BalanceOf(l: Ledger, t: Address, a: Address): nat {
    if t in l then l[t].BalanceOf(a) else 0
  }

  function Transfer(l: Ledger, t: Address, from: Address, to: Address, v: nat): Option<Ledger> {
    if t !in l then None else
    match l[t].Transfer(from, to, v)
    case None => None
    case Some(u) => Some(l[t := u])
  }

  function Approve(l: Ledger, t: Address, owner: Address, spender: Address, v: nat): Option<Ledger> {
    if t !in l then None else Some(l[t := l[t].Approve(owner, spender, v)])
  }

  function TransferFrom(l: Ledger, t: Address, spender: Address, from: Address, to: Address, v: nat): Option<Ledger> {
    if t !in l then None else
    match l[t].TransferFrom(spender, from, to, v)
    case None => None
    case Some(u) => Some(l[t := u])
  }

  ghost predicate SameSupplies(l: Ledger, m: Ledger) {
    && l.Keys == m.Keys
    && forall t :: t in l ==> m[t].Supply() == l[t].Supply()
  }

  ghost predicate LedgerByOthers(a: Address, l: Ledger, m: Ledger) {
    && l.Keys == m.Keys
    && forall t :: t in l ==> ByOthers(a, l[t], m[t])
  }

  /** Supplies fit below the unlimited allowance and `a` has given out no unlimited one. */
  ghost predicate Bounded(a: Address, l: Ledger) {
    forall t :: t in l ==> l[t].Supply() < UINT_MAX && FiniteAllowances(l[t], a)
  }

  /** A ledger changed at one token only, in a way others can change it. */
  lemma OneTokenByOthers(a: Address, l: Ledger, t: Address, u: Token)
    requires t in l && ByOthers(a, l[t], u) && Bounded(a, l)
    ensures LedgerByOthers(a, l, l[t := u]) && Bounded(a, l[t := u])
  {
  }
}
