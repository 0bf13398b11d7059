/**
 Choosing what to liquidate: the largest eligible debt and the largest eligible
 collateral, the balances fetched for that choice, and how often a borrower can
 be chosen before nothing is left to cover.
 */
module Selection {
  import opened Wrappers
  import opened Aave

  type Address = nat

  const U256: nat := 0x1_0000_0000_0000_0000_0000_0000_0000_0000_0000_0000_0000_0000_0000_0000_0000_0000
  const CLOSE_FACTOR_BPS: nat := 5_000

  datatype ReserveBalance = ReserveBalance(asset: Address, debt: nat, aToken: nat, isCollateral: bool, isBorrowed: bool)

  datatype Target = Target(collateralAsset: Address, debtAsset: Address, debtToCover: nat)

  /** The two choices made: which debt to repay and which collateral to seize. */
  datatype Side = Debt | Collateral

  function Key(side: Side, r: ReserveBalance): nat {
    if side.Debt? then r.debt else r.aToken
  }

  predicate Eligible(side: Side, r: ReserveBalance) {
    Key(side, r) > 0 && if side.Debt? then r.isBorrowed else r.isCollateral
  }

  function Filter(side: Side, s: seq<ReserveBalance>): seq<ReserveBalance> {
    if s == [] then [] else (if Eligible(side, s[0]) then [s[0]] else []) + Filter(side, s[1..])
  }

  /** `max_by_key`: the last of the greatest. */
  function MaxByKey(side: Side, s: seq<ReserveBalance>): Option<ReserveBalance> {
    if s == [] then None else
    match MaxByKey(side, s[1..])
    case None => Some(s[0])
    case Some(r) => if Key(side, r) >= Key(side, s[0]) then Some(r) else Some(s[0])
  }

  /** 256-bit multiplication wraps. */
  function DebtToCover(debt: nat): nat {
    debt * CLOSE_FACTOR_BPS % U256 / 10_000
  }

  function Select(reserves: seq<ReserveBalance>): Option<Target> {
    match (MaxByKey(Debt, Filter(Debt, reserves)), MaxByKey(Collateral, Filter(Collateral, reserves)))
    case (Some(d), Some(c)) =>
      if DebtToCover(d.debt) == 0 then None else Some(Target(c.asset, d.asset, DebtToCover(d.debt)))
    case _ => None
  }

  // ---------- What is chosen ----------

  /** `i` is the last index, among the eligible, of the greatest key. */
  ghost predicate LastMaximum(side: Side, s: seq<ReserveBalance>, i: nat) {
    && i < |s| && Eligible(side, s[i])
    && (forall j :: 0 <= j < |s| && Eligible(side, s[j]) ==> Key(side, s[j]) <= Key(side, s[i]))
    && (forall j :: i < j < |s| && Eligible(side, s[j]) ==> Key(side, s[j]) < Key(side, s[i]))
  }

  /** The filter and the maximum together pick the last maximum, and fail exactly when nothing is eligible. */
  lemma {:induction false} PicksLastMaximum(side: Side, s: seq<ReserveBalance>)
    ensures match MaxByKey(side, Filter(side, s))
      case None => forall j :: 0 <= j < |s| ==> !Eligible(side, s[j])
      case Some(r) => exists i: nat :: LastMaximum(side, s, i) && s[i] == r
  {
    if s != [] {
      PicksLastMaximum(side, s[1..]);
      var rest := MaxByKey(side, Filter(side, s[1..]));
      if Eligible(side, s[0]) {
        assert Filter(side, s)[1..] == Filter(side, s[1..]);
      } else {
        assert Filter(side, s) == Filter(side, s[1..]);
      }
      if rest.Some? && (!Eligible(side, s[0]) || Key(side, rest.value) >= Key(side, s[0])) {
        var i: nat :| LastMaximum(side, s[1..], i) && s[1..][i] == rest.value;
        assert LastMaximum(side, s, i + 1);
      } else if Eligible(side, s[0]) {
        if rest.Some? {
          var i: nat :| LastMaximum(side, s[1..], i) && s[1..][i] == rest.value;
          forall j | 0 < j < |s| && Eligible(side, s[j]) ensures Key(side, s[j]) < Key(side, s[0]) {
            assert s[j] == s[1..][j - 1];
          }
        } else {
          forall j | 0 < j < |s| ensures !Eligible(side, s[j]) {
            assert s[j] == s[1..][j - 1];
          }
        }
        assert LastMaximum(side, s, 0);
      }
    }
  }

  /** What is covered is half the debt, rounded down, exactly when the multiplication does not wrap. */
  lemma CoversHalf(debt: nat)
    requires debt < U256
    ensures DebtToCover(debt) == debt / 2 <==> debt * CLOSE_FACTOR_BPS < U256
  {
  }

  /** `i` is the last of the borrowed reserves with the largest debt, and that is not zero. */
  ghost predicate LargestDebt(s: seq<ReserveBalance>, i: nat) {
    && i < |s| && s[i].isBorrowed && s[i].debt > 0
    && (forall j :: 0 <= j < |s| && s[j].isBorrowed ==> s[j].debt <= s[i].debt)
    && (forall j :: i < j < |s| && s[j].isBorrowed ==> s[j].debt < s[i].debt)
  }

  /** `i` is the last of the collateral reserves with the largest aToken balance, and that is not zero. */
  ghost predicate LargestCollateral(s: seq<ReserveBalance>, i: nat) {
    && i < |s| && s[i].isCollateral && s[i].aToken > 0
    && (forall j :: 0 <= j < |s| && s[j].isCollateral ==> s[j].aToken <= s[i].aToken)
    && (forall j :: i < j < |s| && s[j].isCollateral ==> s[j].aToken < s[i].aToken)
  }

  lemma LastMaximumIs(s: seq<ReserveBalance>, i: nat)
    ensures LastMaximum(Debt, s, i) <==> LargestDebt(s, i)
    ensures LastMaximum(Collateral, s, i) <==> LargestCollateral(s, i)
    ensures LargestDebt(s, i) ==> i < |s| && Eligible(Debt, s[i])
    ensures LargestCollateral(s, i) ==> i < |s| && Eligible(Collateral, s[i])
  {
  }

  lemma ChosenIndex(side: Side, s: seq<ReserveBalance>)
    ensures match MaxByKey(side, Filter(side, s))
      case None => forall j :: 0 <= j < |s| ==> !Eligible(side, s[j])
      case Some(r) => exists i: nat :: i < |s| && LastMaximum(side, s, i) && s[i] == r
  {
    hide Filter, MaxByKey;
    PicksLastMaximum(side, s);
  }

  /**
   A target repays the largest debt and seizes the largest collateral, the last
   of equals in both, for half the debt as the 256-bit word computes it.
   */
  lemma TargetIs(s: seq<ReserveBalance>, t: Target)
    ensures Select(s) == Some(t) <==> exists i: nat, j: nat ::
      && LargestDebt(s, i) && t.debtAsset == s[i].asset
      && LargestCollateral(s, j) && t.collateralAsset == s[j].asset
      && t.debtToCover == s[i].debt * 5_000 % U256 / 10_000 > 0
  {
    hide Filter, MaxByKey, LastMaximum, LargestDebt, LargestCollateral, Eligible;
    ChosenIndex(Debt, s);
    ChosenIndex(Collateral, s);
    forall i: nat
      ensures LastMaximum(Debt, s, i) <==> LargestDebt(s, i)
      ensures LastMaximum(Collateral, s, i) <==> LargestCollateral(s, i)
      ensures LargestDebt(s, i) ==> i < |s| && Eligible(Debt, s[i])
      ensures LargestCollateral(s, i) ==> i < |s| && Eligible(Collateral, s[i])
    {
      LastMaximumIs(s, i);
    }
    var d, c := MaxByKey(Debt, Filter(Debt, s)), MaxByKey(Collateral, Filter(Collateral, s));
    if d.Some? && c.Some? {
      var i: nat :| i < |s| && LastMaximum(Debt, s, i) && s[i] == d.value;
      var j: nat :| j < |s| && LastMaximum(Collateral, s, j) && s[j] == c.value;
      assert LargestDebt(s, i) && LargestCollateral(s, j);
      forall k: nat ensures LastMaximum(Debt, s, k) ==> k == i {
        if LastMaximum(Debt, s, k) { LastMaximumIsUnique(Debt, s, i, k); }
      }
      forall k: nat ensures LastMaximum(Collateral, s, k) ==> k == j {
        if LastMaximum(Collateral, s, k) { LastMaximumIsUnique(Collateral, s, j, k); }
      }
    }
  }

  /**
   There is no target exactly when no reserve is nonzero collateral, or nothing
   of the largest borrowed debt would be covered: there is none, it is a single
   unit, or its product with the close factor wraps to less than one unit's
   worth. Nothing is assumed of the reserves.
   */
  lemma NoTargetIff(s: seq<ReserveBalance>)
    ensures Select(s).None?
       <==> || (forall i :: 0 <= i < |s| ==> !(s[i].isCollateral && s[i].aToken > 0))
            || (forall i: nat :: LargestDebt(s, i) ==> s[i].debt * 5_000 % U256 < 10_000)
  {
    hide Filter, MaxByKey, LargestDebt;
    PicksLastMaximum(Debt, s);
    PicksLastMaximum(Collateral, s);
    forall i: nat ensures LastMaximum(Debt, s, i) <==> LargestDebt(s, i) {
      LastMaximumIs(s, i);
    }
    var d := MaxByKey(Debt, Filter(Debt, s));
    if d.Some? {
      var i: nat :| LastMaximum(Debt, s, i) && s[i] == d.value;
      forall j: nat | LastMaximum(Debt, s, j) ensures s[j] == d.value {
        LastMaximumIsUnique(Debt, s, i, j);
      }
    }
  }

  lemma LastMaximumIsUnique(side: Side, s: seq<ReserveBalance>, i: nat, j: nat)
    requires LastMaximum(side, s, i) && LastMaximum(side, s, j)
    ensures i == j
  {
    assert Key(side, s[i]) <= Key(side, s[j]) && Key(side, s[j]) <= Key(side, s[i]);
  }

  /** Concretely: a debt of one unit, and one whose product just wraps, have no target in spite of the collateral. */
  lemma DebtsWithoutTarget(s: seq<ReserveBalance>, i: nat)
    requires LargestDebt(s, i) && (s[i].debt == 1 || s[i].debt == U256 / 5_000 + 1)
    ensures Select(s).None?
  {
    assert s[i].debt * 5_000 % U256 < 10_000;
    forall j: nat | LargestDebt(s, j) ensures s[j].debt * 5_000 % U256 < 10_000 {
      LastMaximumIs(s, i);
      LastMaximumIs(s, j);
      LastMaximumIsUnique(Debt, s, i, j);
    }
    NoTargetIff(s);
  }

  // ---------- What is fetched ----------

  /** A reserve's data as the pool's data provider returns it. */
  datatype ReserveData = ReserveData(stableDebt: nat, variableDebt: nat, aToken: nat)

  function Balance(asset: Address, data: ReserveData, flag: ReserveFlags): ReserveBalance {
    ReserveBalance(asset, (data.stableDebt + data.variableDebt) % U256, data.aToken, flag.collateral, flag.borrowing)
  }

  predicate Flagged(flag: ReserveFlags) {
    flag.borrowing || flag.collateral
  }

  /** Every reserve's balance, whether or not the user has it flagged. */
  function AllBalances(reserves: seq<Address>, flags: seq<ReserveFlags>, data: Address -> ReserveData)
    : seq<ReserveBalance>
    requires |reserves| == |flags|
  {
    if reserves == [] then [] else
    [Balance(reserves[0], data(reserves[0]), flags[0])] + AllBalances(reserves[1..], flags[1..], data)
  }

  /** The balances of the flagged reserves only. */
  function FlaggedBalances(reserves: seq<Address>, flags: seq<ReserveFlags>, data: Address -> ReserveData)
    : seq<ReserveBalance>
    requires |reserves| == |flags|
  {
    if reserves == [] then [] else
    (if Flagged(flags[0]) then [Balance(reserves[0], data(reserves[0]), flags[0])] else [])
    + FlaggedBalances(reserves[1..], flags[1..], data)
  }

  lemma {:induction false} FlaggedFilter(side: Side, reserves: seq<Address>, flags: seq<ReserveFlags>,
                                         data: Address -> ReserveData)
    requires |reserves| == |flags|
    ensures Filter(side, FlaggedBalances(reserves, flags, data)) == Filter(side, AllBalances(reserves, flags, data))
  {
    if reserves != [] {
      FlaggedFilter(side, reserves[1..], flags[1..], data);
      var b := Balance(reserves[0], data(reserves[0]), flags[0]);
      FilterCons(side, b, AllBalances(reserves[1..], flags[1..], data));
      FilterCons(side, b, FlaggedBalances(reserves[1..], flags[1..], data));
      if !Flagged(flags[0]) {
        assert FlaggedBalances(reserves, flags, data) == FlaggedBalances(reserves[1..], flags[1..], data);
      }
    }
  }

  lemma FilterCons(side: Side, b: ReserveBalance, rest: seq<ReserveBalance>)
    ensures Filter(side, [b] + rest) == (if Eligible(side, b) then [b] else []) + Filter(side, rest)
  {
  }

  /** Leaving out the reserves without a flag never changes the target. */
  lemma FetchingLessIsEnough(reserves: seq<Address>, flags: seq<ReserveFlags>, data: Address -> ReserveData)
    requires |reserves| == |flags|
    ensures Select(FlaggedBalances(reserves, flags, data)) == Select(AllBalances(reserves, flags, data))
  {
    FlaggedFilter(Debt, reserves, flags, data);
    FlaggedFilter(Collateral, reserves, flags, data);
  }

  /** What the pool's data and bitmap say of the user's position in reserve `i`. */
  ghost predicate Position(reserves: seq<Address>, bitmap: nat, data: Address -> ReserveData, i: nat, b: ReserveBalance)
    requires i < |reserves|
  {
    && b.asset == reserves[i]
    && b.debt == (data(reserves[i]).stableDebt + data(reserves[i]).variableDebt) % U256
    && b.aToken == data(reserves[i]).aToken
    && (b.isBorrowed <==> bitmap / Pow4(i) % 2 == 1)
    && (b.isCollateral <==> bitmap / Pow4(i) / 2 % 2 == 1)
  }

  /** Reserve `i` has one of its two bits set. */
  predicate Used(bitmap: nat, i: nat) {
    bitmap / Pow4(i) % 4 != 0
  }

  lemma UsedIsFlagged(bitmap: nat, n: nat, i: nat)
    requires 2 * n <= U128_BITS && i < n
    ensures Used(bitmap, i) <==> Flagged(Decode(bitmap, n)[i])
  {
    hide Decode, Pow4;
    FlagsAreBits(bitmap, n, i);
    FirstBits(bitmap / Pow4(i));
  }

  /** Every reserve's balance in order, each the user's position in it. */
  lemma {:induction false} AllBalancesAt(reserves: seq<Address>, flags: seq<ReserveFlags>, data: Address -> ReserveData,
                                         i: nat)
    requires |reserves| == |flags| && i < |reserves|
    ensures |AllBalances(reserves, flags, data)| == |reserves|
    ensures AllBalances(reserves, flags, data)[i] == Balance(reserves[i], data(reserves[i]), flags[i])
  {
    if i > 0 {
      AllBalancesAt(reserves[1..], flags[1..], data, i - 1);
    } else {
      AllBalancesLength(reserves, flags, data);
    }
  }

  lemma {:induction false} AllBalancesLength(reserves: seq<Address>, flags: seq<ReserveFlags>,
                                             data: Address -> ReserveData)
    requires |reserves| == |flags|
    ensures |AllBalances(reserves, flags, data)| == |reserves|
  {
    if reserves != [] {
      AllBalancesLength(reserves[1..], flags[1..], data);
    }
  }

  /**
   Of the first `n` reserves, `asked` are those with a bit set, in their order,
   and `balances` the user's positions in them.
   */
  ghost predicate Fetched(reserves: seq<Address>, bitmap: nat, data: Address -> ReserveData, n: nat,
                          asked: seq<nat>, balances: seq<ReserveBalance>)
    requires n <= |reserves|
  {
    && (forall a, b :: 0 <= a < b < |asked| ==> asked[a] < asked[b])
    && (forall i: nat :: i in asked <==> i < n && Used(bitmap, i))
    && |balances| == |asked|
    && forall k :: 0 <= k < |asked| ==> asked[k] < n && Position(reserves, bitmap, data, asked[k], balances[k])
  }

  lemma FetchedNone(reserves: seq<Address>, bitmap: nat, data: Address -> ReserveData)
    ensures Fetched(reserves, bitmap, data, 0, [], [])
  {
  }

  lemma FetchedSkip(reserves: seq<Address>, bitmap: nat, data: Address -> ReserveData, n: nat,
                    asked: seq<nat>, balances: seq<ReserveBalance>)
    requires n < |reserves| && Fetched(reserves, bitmap, data, n, asked, balances) && !Used(bitmap, n)
    ensures Fetched(reserves, bitmap, data, n + 1, asked, balances)
  {
    hide Used, Position;
  }

  lemma FetchedOne(reserves: seq<Address>, bitmap: nat, data: Address -> ReserveData, n: nat,
                   asked: seq<nat>, balances: seq<ReserveBalance>, b: ReserveBalance)
    requires n < |reserves| && Fetched(reserves, bitmap, data, n, asked, balances)
    requires Used(bitmap, n) && Position(reserves, bitmap, data, n, b)
    ensures Fetched(reserves, bitmap, data, n + 1, asked + [n], balances + [b])
  {
    hide Used, Position;
  }

  lemma FlaggedStep(reserves: seq<Address>, flags: seq<ReserveFlags>, data: Address -> ReserveData, i: nat,
                    balances: seq<ReserveBalance>)
    requires i < |reserves| == |flags|
    ensures var b := Balance(reserves[i], data(reserves[i]), flags[i]);
      balances + FlaggedBalances(reserves[i..], flags[i..], data) ==
      (if Flagged(flags[i]) then balances + [b] else balances)
      + FlaggedBalances(reserves[i + 1..], flags[i + 1..], data)
  {
    assert reserves[i..][1..] == reserves[i + 1..] && flags[i..][1..] == flags[i + 1..];
    ghost var rest := FlaggedBalances(reserves[i + 1..], flags[i + 1..], data);
    var b := Balance(reserves[i], data(reserves[i]), flags[i]);
    assert balances + ([b] + rest) == (balances + [b]) + rest && [] + rest == rest;
  }

  /** What is fetched for a used reserve is the user's position in it. */
  lemma BalanceIsPosition(reserves: seq<Address>, bitmap: nat, data: Address -> ReserveData, i: nat)
    requires 2 * |reserves| <= U128_BITS && i < |reserves|
    ensures Position(reserves, bitmap, data, i,
                     Balance(reserves[i], data(reserves[i]), Decode(bitmap, |reserves|)[i]))
  {
    hide Decode, Pow4;
    FlagsAreBits(bitmap, |reserves|, i);
  }

  /** The list of all reserves is the user's position in each. */
  lemma AllPositions(reserves: seq<Address>, bitmap: nat, data: Address -> ReserveData, i: nat)
    requires 2 * |reserves| <= U128_BITS && i < |reserves|
    ensures var all := AllBalances(reserves, Decode(bitmap, |reserves|), data);
      |all| == |reserves| && Position(reserves, bitmap, data, i, all[i])
  {
    hide Decode, Pow4, AllBalances, Position, Balance;
    AllBalancesAt(reserves, Decode(bitmap, |reserves|), data, i);
    BalanceIsPosition(reserves, bitmap, data, i);
  }

  lemma NoneLeft(reserves: seq<Address>, flags: seq<ReserveFlags>, data: Address -> ReserveData)
    requires |reserves| == |flags|
    ensures FlaggedBalances(reserves[|reserves|..], flags[|reserves|..], data) == []
  {
  }

  /**
   The bot's loop: one request per reserve with a bit set, given up at the
   first that fails. `asked` are the reserves it requested, in their order.
   */
  method FetchBalances(reserves: seq<Address>, bitmap: nat, data: Address -> ReserveData, fails: Address -> bool)
    returns (r: Option<seq<ReserveBalance>>, ghost asked: seq<nat>)
    requires 2 * |reserves| <= U128_BITS
    ensures r.None? <==> exists i :: 0 <= i < |reserves| && Used(bitmap, i) && fails(reserves[i])
    ensures r.Some? ==> Fetched(reserves, bitmap, data, |reserves|, asked, r.value)
    ensures r.Some? ==> Select(r.value) == Select(AllBalances(reserves, Decode(bitmap, |reserves|), data))
  {
    hide Decode, Select, AllBalances, FlaggedBalances, Balance, Used, Position, Fetched, Pow4;
    var flags := Decode(bitmap, |reserves|);
    var balances := [];
    asked := [];
    FetchedNone(reserves, bitmap, data);
    for i := 0 to |reserves|
      invariant balances + FlaggedBalances(reserves[i..], flags[i..], data) == FlaggedBalances(reserves, flags, data)
      invariant forall j :: 0 <= j < i && Used(bitmap, j) ==> !fails(reserves[j])
      invariant Fetched(reserves, bitmap, data, i, asked, balances)
    {
      UsedIsFlagged(bitmap, |reserves|, i);
      FlaggedStep(reserves, flags, data, i, balances);
      var flag := flags[i];
      if !flag.borrowing && !flag.collateral {
        FetchedSkip(reserves, bitmap, data, i, asked, balances);
        continue;
      }
      if fails(reserves[i]) {
        return None, asked;
      }
      var fetched := Balance(reserves[i], data(reserves[i]), flag);
      BalanceIsPosition(reserves, bitmap, data, i);
      FetchedOne(reserves, bitmap, data, i, asked, balances, fetched);
      balances, asked := balances + [fetched], asked + [i];
    }
    NoneLeft(reserves, flags, data);
    assert balances + [] == balances;
    FetchingLessIsEnough(reserves, flags, data);
    return Some(balances), asked;
  }

  // ---------- How long a borrower stays a target ----------

  /** The number of halvings, rounding up, that bring a debt down to one. */
  function Halvings(d: nat): nat
    requires d > 0
  {
    if d == 1 then 0 else 1 + Halvings((d + 1) / 2)
  }

  function Pow2(k: nat): nat {
    if k == 0 then 1 else 2 * Pow2(k - 1)
  }

  /** It is the logarithm to base two, rounded up. */
  lemma {:induction false} HalvingsIsCeilLog2(d: nat)
    requires d > 0
    ensures d <= Pow2(Halvings(d))
    ensures d > 1 ==> Pow2(Halvings(d) - 1) < d
  {
    if d > 1 {
      HalvingsIsCeilLog2((d + 1) / 2);
    }
  }

  /** One liquidation of the target: its debt goes down by what was covered. */
  function Repay(s: seq<ReserveBalance>, t: Target): seq<ReserveBalance>
    requires forall i :: 0 <= i < |s| && s[i].asset == t.debtAsset ==> t.debtToCover <= s[i].debt
  {
    seq(|s|, i requires 0 <= i < |s| =>
      if s[i].asset == t.debtAsset then s[i].(debt := s[i].debt - t.debtToCover) else s[i])
  }

  function Work(s: seq<ReserveBalance>): nat {
    if s == [] then 0 else (if Eligible(Debt, s[0]) then Halvings(s[0].debt) else 0) + Work(s[1..])
  }

  ghost predicate Liquidatable(s: seq<ReserveBalance>) {
    && (forall i, j :: 0 <= i < j < |s| ==> s[i].asset != s[j].asset)
    && (forall i :: 0 <= i < |s| ==> s[i].debt * CLOSE_FACTOR_BPS < U256)
    && (exists i :: 0 <= i < |s| && Eligible(Collateral, s[i]))
  }

  lemma {:induction false} WorkOfUpdate(s: seq<ReserveBalance>, i: nat, r: ReserveBalance)
    requires i < |s| && Eligible(Debt, s[i]) && Eligible(Debt, r) && Halvings(s[i].debt) == Halvings(r.debt) + 1
    ensures Work(s[i := r]) == Work(s) - 1
  {
    if i > 0 {
      WorkOfUpdate(s[1..], i - 1, r);
      assert s[i := r][1..] == s[1..][i - 1 := r];
    } else {
      assert s[0 := r][1..] == s[1..];
    }
  }

  lemma {:induction false} NoWorkLeft(s: seq<ReserveBalance>)
    requires forall i :: 0 <= i < |s| && Eligible(Debt, s[i]) ==> s[i].debt == 1
    ensures Work(s) == 0
  {
    if s != [] {
      NoWorkLeft(s[1..]);
    }
  }

  function Halve(s: seq<ReserveBalance>, i: nat): seq<ReserveBalance>
    requires i < |s|
  {
    s[i := s[i].(debt := (s[i].debt + 1) / 2)]
  }

  /** Liquidating `t` halves the largest debt, rounding up, and changes nothing else. */
  ghost predicate HalvesLargest(s: seq<ReserveBalance>, t: Target, i: nat) {
    && LargestDebt(s, i) && s[i].asset == t.debtAsset && t.debtToCover == s[i].debt / 2 > 0
    && (forall j :: 0 <= j < |s| && s[j].asset == t.debtAsset ==> t.debtToCover <= s[j].debt)
    && Repay(s, t) == Halve(s, i)
    && Liquidatable(Repay(s, t)) && Work(Repay(s, t)) == Work(s) - 1
  }

  ghost predicate SeizesLargest(s: seq<ReserveBalance>, t: Target) {
    exists j: nat :: LargestCollateral(s, j) && s[j].asset == t.collateralAsset
  }

  lemma TargetSeizes(s: seq<ReserveBalance>, t: Target)
    requires Select(s) == Some(t)
    ensures SeizesLargest(s, t)
  {
    hide Select;
    TargetIs(s, t);
  }

  lemma HalvingsStep(d: nat)
    requires d > 1
    ensures Halvings(d) == Halvings((d + 1) / 2) + 1
  {
  }

  lemma HalveKeeps(s: seq<ReserveBalance>, i: nat)
    requires Liquidatable(s) && i < |s| && Eligible(Debt, s[i]) && s[i].debt > 1
    ensures Liquidatable(Halve(s, i)) && Work(Halve(s, i)) == Work(s) - 1
  {
    hide Work, Halvings;
    var k :| 0 <= k < |s| && Eligible(Collateral, s[k]);
    assert Halvings(s[i].debt) == Halvings((s[i].debt + 1) / 2) + 1 by { HalvingsStep(s[i].debt); }
    assert Eligible(Collateral, Halve(s, i)[k]);
    WorkOfUpdate(s, i, Halve(s, i)[i]);
  }

  lemma RepayHalves(s: seq<ReserveBalance>, t: Target, i: nat)
    requires Liquidatable(s) && i < |s| && s[i].asset == t.debtAsset && t.debtToCover == s[i].debt / 2
    ensures forall j :: 0 <= j < |s| && s[j].asset == t.debtAsset ==> t.debtToCover <= s[j].debt
    ensures Repay(s, t) == Halve(s, i)
  {
  }

  /** Each round halves the largest debt; there is no target exactly when no eligible debt exceeds one. */
  lemma OneRound(s: seq<ReserveBalance>)
    requires Liquidatable(s)
    ensures match Select(s)
      case None => Work(s) == 0 && forall i :: 0 <= i < |s| && Eligible(Debt, s[i]) ==> s[i].debt == 1
      case Some(t) => (exists i: nat :: HalvesLargest(s, t, i)) && SeizesLargest(s, t)
  {
    hide Filter, MaxByKey, Work, Repay, Halve, DebtToCover, SeizesLargest;
    PicksLastMaximum(Debt, s);
    PicksLastMaximum(Collateral, s);
    var d := MaxByKey(Debt, Filter(Debt, s));
    if d.None? {
      NoWorkLeft(s);
    } else {
      var i: nat :| LastMaximum(Debt, s, i) && s[i] == d.value;
      CoversHalf(s[i].debt);
      if s[i].debt == 1 {
        forall j | 0 <= j < |s| && Eligible(Debt, s[j]) ensures s[j].debt == 1 {
          assert Key(Debt, s[j]) <= Key(Debt, s[i]);
        }
        NoWorkLeft(s);
      } else {
        LastMaximumIs(s, i);
        TargetSeizes(s, Select(s).value);
        RepayHalves(s, Select(s).value, i);
        HalveKeeps(s, i);
        assert HalvesLargest(s, Select(s).value, i);
      }
    }
  }

  /** Liquidating until there is no target: the rounds it took and what is left. */
  function Liquidate(s: seq<ReserveBalance>): (nat, seq<ReserveBalance>)
    requires Liquidatable(s)
    decreases Work(s)
  {
    OneRound(s);
    match Select(s)
    case None => (0, s)
    case Some(t) =>
      var (rounds, rest) := Liquidate(Repay(s, t));
      (rounds + 1, rest)
  }

  /**
   A borrower is chosen exactly as often as the debts can be halved in all,
   and what is left is a debt of one in every borrowed reserve that had any.
   */
  lemma {:induction false} ExactRounds(s: seq<ReserveBalance>)
    requires Liquidatable(s)
    ensures var (rounds, rest) := Liquidate(s);
      && rounds == Work(s) && |rest| == |s|
      && forall i :: 0 <= i < |s| ==> rest[i] == if Eligible(Debt, s[i]) then s[i].(debt := 1) else s[i]
    decreases Work(s)
  {
    OneRound(s);
    match Select(s)
    case None =>
    case Some(t) => ExactRounds(Repay(s, t));
  }
}
