/**
 * One custodial wallet per organisation, however many callers ask for it at
 * once: a caller that finds no wallet draws one and claims the row only if it
 * is still empty, and a caller that loses the claim reads the winner's.
 */
module OrganisationWallet {
  import opened Wrappers
  import opened Schedules

  type Address = nat
  type Key = nat

  datatype Wallet = Wallet(address: Address, privateKey: Key)

  /** The organisation's wallet columns, and the address each of its users shows. */
  datatype Row = Row(address: Option<Address>, key: Option<Key>, members: seq<Option<Address>>)

  /** The wallet a row holds: a stored key without an address has the address derived from it. */
  function Stored(derive: Key -> Address, row: Row): Option<Wallet> {
    if row.key.Some? then Some(Wallet(row.address.GetOr(derive(row.key.value)), row.key.value)) else None
  }

  /** The conditional update: it changes a row only while no key is stored. */
  function Claim(row: Row, w: Wallet): Row {
    if row.key.Some? then row
    else Row(Some(w.address), Some(w.privateKey), seq(|row.members|, _ => Some(w.address)))
  }

  function Backfill(row: Row, w: Wallet): Row { row.(address := Some(w.address)) }

  class Organisation {
    var blockchainAddress: Option<Address>
    var blockchainPrivateKey: Option<Key>
    var memberAddresses: seq<Option<Address>>

    ghost function Columns(): Row
      reads this
    {
      Row(blockchainAddress, blockchainPrivateKey, memberAddresses)
    }

    constructor (members: nat)
      ensures Columns() == Row(None, None, seq(members, _ => None))
    {
      blockchainAddress, blockchainPrivateKey := None, None;
      memberAddresses := seq(members, _ => None);
    }

    method ClaimOrganisationWallet(w: Wallet) returns (claimed: bool)
      modifies this
      ensures claimed == old(blockchainPrivateKey).None?
      ensures Columns() == Claim(old(Columns()), w)
    {
      if blockchainPrivateKey.Some? { return false; }
      blockchainAddress, blockchainPrivateKey := Some(w.address), Some(w.privateKey);
      memberAddresses := seq(|memberAddresses|, _ => Some(w.address));
      return true;
    }

    /** `rival` is another caller's wallet, claimed after this caller read the row and before it claims. */
    method EnsureOrganisationWallet(derive: Key -> Address, drawn: Wallet, rival: Option<Wallet>)
      returns (w: Wallet)
      modifies this
      ensures Some(w) == Stored(derive, Columns()) && blockchainAddress == Some(w.address)
      ensures old(blockchainPrivateKey).Some? ==>
                Some(w) == Stored(derive, old(Columns())) && Columns() == Backfill(old(Columns()), w)
      ensures old(blockchainPrivateKey).None? ==> Columns() == Claim(old(Columns()), rival.GetOr(drawn))
      decreases blockchainPrivateKey.None?
    {
      if blockchainPrivateKey.Some? {
        var address := blockchainAddress.GetOr(derive(blockchainPrivateKey.value));
        if blockchainAddress.None? {
          blockchainAddress := Some(address);
        }
        return Wallet(address, blockchainPrivateKey.value);
      }
      if rival.Some? {
        var _ := ClaimOrganisationWallet(rival.value);
      }
      var claimed := ClaimOrganisationWallet(drawn);
      if claimed { return drawn; }
      w := EnsureOrganisationWallet(derive, drawn, None);
    }
  }

  // ---------------------------------------------------------------------------
  // Callers interleaved
  // ---------------------------------------------------------------------------

  /** Where a caller is; `again` is how often it has started over. */
  datatype Caller =
    | Reading(again: nat)
    | Filling(w: Wallet)
    | Claiming(w: Wallet, again: nat)
    | Returned(w: Wallet)
    | NotFound

  /** `wins` counts the claims that stored a wallet. */
  datatype Sys = Sys(row: Option<Row>, callers: seq<Caller>, wins: nat)

  /** One move: caller `who` makes its next database access; a draw gives it `drawn`. */
  datatype Move = Move(who: nat, drawn: Wallet)

  function Step(derive: Key -> Address, s: Sys, m: Move): Sys {
    if m.who >= |s.callers| then s
    else if s.row.None? then
      if s.callers[m.who].Returned? then s else s.(callers := s.callers[m.who := NotFound])
    else
      var row := s.row.value;
      match s.callers[m.who]
      case Reading(again) =>
        var next :=
          match Stored(derive, row)
          case None => Claiming(m.drawn, again)
          case Some(w) => if row.address.None? then Filling(w) else Returned(w);
        s.(callers := s.callers[m.who := next])
      case Filling(w) =>
        s.(row := Some(Backfill(row, w)), callers := s.callers[m.who := Returned(w)])
      case Claiming(w, again) =>
        // The update says how many rows it changed.
        var won := row.key.None?;
        Sys(Some(Claim(row, w)), s.callers[m.who := if won then Returned(w) else Reading(again + 1)],
            s.wins + if won then 1 else 0)
      case _ => s
  }

  function Steps(derive: Key -> Address): (Sys, Move) -> Sys { (s: Sys, m: Move) => Step(derive, s, m) }

  function Run(derive: Key -> Address, s: Sys, moves: seq<Move>): Sys { Fold(Steps(derive), s, moves) }

  predicate Start(s: Sys) {
    s.wins == 0 && forall i :: 0 <= i < |s.callers| ==> s.callers[i] == Reading(0)
  }

  /** What a caller at each point may rely on. */
  predicate CallerOk(derive: Key -> Address, row: Option<Row>, c: Caller) {
    match c
    case Reading(again) => again <= 1 && (again == 1 ==> row.Some? && row.value.key.Some?)
    case Filling(w) => row.Some? && Stored(derive, row.value) == Some(w)
    case Claiming(_, again) => again == 0
    case Returned(w) => row.Some? && Stored(derive, row.value) == Some(w) && row.value.address == Some(w.address)
    case NotFound => row.None?
  }

  predicate Inv(derive: Key -> Address, s: Sys) {
    forall i :: 0 <= i < |s.callers| ==> CallerOk(derive, s.row, s.callers[i])
  }

  /** A wallet once stored stays: its key for good, and its address once it has one. */
  predicate Stands(derive: Key -> Address, was: Option<Row>, row: Option<Row>) {
    was.None? == row.None? &&
    (was.Some? && was.value.key.Some? ==>
      Stored(derive, row.value) == Stored(derive, was.value)
      && (was.value.address.Some? ==> row.value.address == was.value.address))
  }

  lemma StepKeeps(derive: Key -> Address, s: Sys, m: Move)
    requires Inv(derive, s)
    ensures Inv(derive, Step(derive, s, m)) && Stands(derive, s.row, Step(derive, s, m).row)
  {
  }

  lemma {:induction false} RunKeeps(derive: Key -> Address, s: Sys, moves: seq<Move>)
    requires Inv(derive, s)
    ensures Inv(derive, Run(derive, s, moves)) && Stands(derive, s.row, Run(derive, s, moves).row)
    ensures |Run(derive, s, moves).callers| == |s.callers|
  {
    if moves != [] {
      var before := moves[..|moves| - 1];
      RunKeeps(derive, s, before);
      StepKeeps(derive, Run(derive, s, before), moves[|moves| - 1]);
    }
  }

  /** Whatever wallet is stored at some point of a run is stored at every later point. */
  lemma NeverOverwritten(derive: Key -> Address, s: Sys, moves: seq<Move>, more: seq<Move>)
    requires Start(s)
    ensures Stands(derive, Run(derive, s, moves).row, Run(derive, s, moves + more).row)
  {
    RunKeeps(derive, s, moves);
    FoldConcat(Steps(derive), s, moves, more);
    RunKeeps(derive, Run(derive, s, moves), more);
  }

  /** Every caller that returns, whenever it does, returns the one stored wallet, having started over at most once. */
  lemma EveryoneGetsTheSame(derive: Key -> Address, s: Sys, moves: seq<Move>, i: nat)
    requires Start(s) && i < |s.callers|
    ensures var t := Run(derive, s, moves);
            |t.callers| == |s.callers|
            && (t.callers[i].Returned? ==>
                  t.row.Some? && Stored(derive, t.row.value) == Some(t.callers[i].w)
                  && t.row.value.address == Some(t.callers[i].w.address))
            && (t.callers[i].Reading? || t.callers[i].Claiming? ==> t.callers[i].again <= 1)
            && (t.callers[i].NotFound? ==> s.row.None?)
  {
    RunKeeps(derive, s, moves);
    assert CallerOk(derive, Run(derive, s, moves).row, Run(derive, s, moves).callers[i]);
  }

  /** Of all the wallets drawn, one is ever stored, and none over a wallet that was there. */
  lemma {:induction false} OneWalletIsStored(derive: Key -> Address, s: Sys, moves: seq<Move>)
    requires Start(s) && s.row.Some?
    ensures var t := Run(derive, s, moves);
            && t.row.Some?
            && t.wins == (if s.row.value.key.None? && t.row.value.key.Some? then 1 else 0)
            && |t.row.value.members| == |s.row.value.members|
            && (t.wins == 1 ==>
                  WinnerIn(t.row.value, moves)
                  && forall k :: 0 <= k < |t.row.value.members| ==> t.row.value.members[k] == t.row.value.address)
  {
    WinnerWasDrawn(derive, s, moves);
    if moves != [] {
      var before := moves[..|moves| - 1];
      OneWalletIsStored(derive, s, before);
      RunKeeps(derive, s, before);
      var t, m := Run(derive, s, before), moves[|moves| - 1];
      if m.who < |t.callers| {
        assert CallerOk(derive, t.row, t.callers[m.who]);
        WinnersAddressStays(derive, s, before, m.who);
      }
    }
  }

  predicate DrawnIn(w: Wallet, moves: seq<Move>) { exists k :: 0 <= k < |moves| && moves[k].drawn == w }

  /** The row holds a wallet some caller drew, its key and its address. */
  ghost predicate WinnerIn(row: Row, moves: seq<Move>) {
    exists w :: DrawnIn(w, moves) && row.key == Some(w.privateKey) && row.address == Some(w.address)
  }

  lemma {:induction false} ClaimedIsDrawn(derive: Key -> Address, s: Sys, moves: seq<Move>, i: nat)
    requires Start(s) && i < |s.callers|
    ensures var t := Run(derive, s, moves);
            |t.callers| == |s.callers| && (t.callers[i].Claiming? ==> DrawnIn(t.callers[i].w, moves))
  {
    if moves != [] {
      var n := |moves| - 1;
      ClaimedIsDrawn(derive, s, moves[..n], i);
      var t := Run(derive, s, moves[..n]);
      if t.callers[i].Claiming? {
        DrawnLater(t.callers[i].w, moves, n);
      }
      assert DrawnIn(moves[n].drawn, moves);
    }
  }

  lemma DrawnLater(w: Wallet, moves: seq<Move>, n: nat)
    requires n <= |moves| && DrawnIn(w, moves[..n])
    ensures DrawnIn(w, moves)
  {
    var k :| 0 <= k < n && moves[..n][k].drawn == w;
    assert moves[k].drawn == w;
  }

  lemma {:induction false} WinnerWasDrawn(derive: Key -> Address, s: Sys, moves: seq<Move>)
    requires Start(s) && s.row.Some?
    ensures var t := Run(derive, s, moves);
            t.row.Some? && (t.wins > 0 ==> WinnerIn(t.row.value, moves))
  {
    if moves != [] {
      var n := |moves| - 1;
      WinnerWasDrawn(derive, s, moves[..n]);
      RunKeeps(derive, s, moves[..n]);
      var t, m := Run(derive, s, moves[..n]), moves[n];
      if t.wins > 0 {
        var w :| DrawnIn(w, moves[..n]) && t.row.value.key == Some(w.privateKey) && t.row.value.address == Some(w.address);
        DrawnLater(w, moves, n);
      }
      if m.who < |t.callers| {
        ClaimedIsDrawn(derive, s, moves[..n], m.who);
        WinnersAddressStays(derive, s, moves[..n], m.who);
        if t.callers[m.who].Claiming? {
          DrawnLater(t.callers[m.who].w, moves, n);
        }
      }
    }
  }

  /** A stored address is never filled in again with another. */
  lemma {:induction false} WinnersAddressStays(derive: Key -> Address, s: Sys, moves: seq<Move>, i: nat)
    requires Start(s) && s.row.Some? && i < |s.callers|
    ensures var t := Run(derive, s, moves);
            t.row.Some? && |t.callers| == |s.callers|
            && (t.wins > 0 ==> t.row.value.address.Some? && t.row.value.key.Some?)
            && (t.wins > 0 && t.callers[i].Filling? ==> t.row.value.address == Some(t.callers[i].w.address))
  {
    RunKeeps(derive, s, moves);
    if moves != [] {
      var before := moves[..|moves| - 1];
      var m := moves[|moves| - 1];
      RunKeeps(derive, s, before);
      WinnersAddressStays(derive, s, before, i);
      if m.who < |s.callers| {
        WinnersAddressStays(derive, s, before, m.who);
      }
    }
    assert CallerOk(derive, Run(derive, s, moves).row, Run(derive, s, moves).callers[i]);
  }

  // ---------------------------------------------------------------------------
  // Everyone finishes
  // ---------------------------------------------------------------------------

  /** Database accesses a caller has still to make, at most. */
  function Left(c: Caller): nat {
    match c
    case Reading(again) => if again == 0 then 4 else 2
    case Claiming(_, _) => 3
    case Filling(_) => 1
    case _ => 0
  }

  function LeftInAll(callers: seq<Caller>): nat {
    if callers == [] then 0 else Left(callers[0]) + LeftInAll(callers[1..])
  }

  lemma {:induction false} LeftAfter(callers: seq<Caller>, i: nat, c: Caller)
    requires i < |callers|
    ensures LeftInAll(callers[i := c]) == LeftInAll(callers) - Left(callers[i]) + Left(c)
  {
    var after := callers[i := c];
    if i == 0 {
      assert after[1..] == callers[1..];
    } else {
      LeftAfter(callers[1..], i - 1, c);
      assert after[1..] == callers[1..][i - 1 := c];
    }
  }

  /** A caller whose claim stored its wallet returns that one at once; one whose claim came late starts over. */
  lemma ClaimsAreAnswered(derive: Key -> Address, s: Sys, m: Move)
    requires m.who < |s.callers| && s.callers[m.who].Claiming? && s.row.Some?
    ensures var t, c := Step(derive, s, m), s.callers[m.who];
            && |t.callers| == |s.callers| && t.row.Some?
            && (s.row.value.key.None? ==>
                  t.callers[m.who] == Returned(c.w) && t.row.value.key == Some(c.w.privateKey) && t.wins == s.wins + 1)
            && (s.row.value.key.Some? ==>
                  t.callers[m.who] == Reading(c.again + 1) && t.row == s.row && t.wins == s.wins)
  {
  }

  /** No caller ever waits, and each access brings the end of the whole nearer: four accesses a caller suffice. */
  lemma EveryMoveCounts(derive: Key -> Address, s: Sys, m: Move)
    requires Inv(derive, s) && m.who < |s.callers| && Left(s.callers[m.who]) > 0
    ensures LeftInAll(Step(derive, s, m).callers) < LeftInAll(s.callers)
  {
    var t := Step(derive, s, m);
    assert CallerOk(derive, s.row, s.callers[m.who]);
    assert t.callers == s.callers[m.who := t.callers[m.who]];
    LeftAfter(s.callers, m.who, t.callers[m.who]);
  }
}
