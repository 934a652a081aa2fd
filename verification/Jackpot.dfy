/** The jackpot's tickets, the draw of its winning numbers, and the search for a winner. */
module Jackpot {
  import opened Numbers

  const NUMBERS: nat := 49
  const PICKS: nat := 6

  datatype Status = Active | Paused | Completed | Cancelled

  datatype Jackpot = Jackpot(status: Status, minBet: int, maxBet: int)

  datatype Ticket = Ticket(id: int, numbers: seq<int>)

  datatype Error = NotActive | BelowMinimum | AboveMaximum | WrongCount | OutOfRange | Duplicate

  function Elements(s: seq<int>): set<int>
  {
    set n | n in s
  }

  predicate InRange(s: seq<int>)
  {
    forall i :: 0 <= i < |s| ==> 1 <= s[i] <= NUMBERS
  }

  predicate NoDuplicates(s: seq<int>)
  {
    forall i, j :: 0 <= i < j < |s| ==> s[i] != s[j]
  }

  /** None accepts the ticket; otherwise the first rule it breaks. */
  method ValidateTicketPurchase(jackpot: Jackpot, betAmount: int, numbers: seq<int>) returns (error: Option<Error>)
    ensures error == None <==>
              && jackpot.status == Active && jackpot.minBet <= betAmount <= jackpot.maxBet
              && |numbers| == 6 && (forall i :: 0 <= i < |numbers| ==> 1 <= numbers[i] <= 49)
              && (forall i, j :: 0 <= i < j < |numbers| ==> numbers[i] != numbers[j])
    ensures error == Some(NotActive) <==> jackpot.status != Active
    ensures error == Some(BelowMinimum) <==> jackpot.status == Active && betAmount < jackpot.minBet
    ensures error == Some(AboveMaximum) <==>
              jackpot.status == Active && jackpot.minBet <= betAmount && jackpot.maxBet < betAmount
    ensures error == Some(WrongCount) ==> |numbers| != PICKS
    ensures error == Some(OutOfRange) ==> |numbers| == PICKS && !InRange(numbers)
    ensures error == Some(Duplicate) ==> |numbers| == PICKS && InRange(numbers) && !NoDuplicates(numbers)
  {
    if jackpot.status != Active {
      return Some(NotActive);
    }
    if betAmount < jackpot.minBet {
      return Some(BelowMinimum);
    }
    if betAmount > jackpot.maxBet {
      return Some(AboveMaximum);
    }
    if |numbers| != PICKS {
      return Some(WrongCount);
    }
    for i := 0 to |numbers|
      invariant InRange(numbers[..i])
    {
      if numbers[i] < 1 || numbers[i] > NUMBERS {
        return Some(OutOfRange);
      }
    }
    assert numbers[..|numbers|] == numbers;
    var seen: set<int> := {};
    for i := 0 to |numbers|
      invariant seen == Elements(numbers[..i]) && NoDuplicates(numbers[..i])
    {
      if numbers[i] in seen {
        assert numbers[i] in numbers[..i];
        return Some(Duplicate);
      }
      assert numbers[..i + 1] == numbers[..i] + [numbers[i]];
      seen := seen + {numbers[i]};
    }
    return None;
  }

  // ------------------------------------------------------------------ the draw

  /** The generator's k-th number is draws(k) + 1, and every number is drawn again: from k on, n at the latest at next(k, n). */
  ghost predicate FairDraws(draws: nat -> nat, next: (nat, int) -> nat)
  {
    && (forall k: nat :: draws(k) < NUMBERS)
    && (forall k: nat, n: int :: 1 <= n <= NUMBERS ==> next(k, n) >= k && draws(next(k, n)) + 1 == n)
  }

  /** The first k draws without the repeats. */
  function FirstSeen(draws: nat -> nat, k: nat): seq<int>
  {
    if k == 0 then []
    else
      var earlier := FirstSeen(draws, k - 1);
      var n := draws(k - 1) + 1;
      if n in earlier then earlier else earlier + [n]
  }

  lemma {:induction false} DrawsAreValid(draws: nat -> nat, k: nat)
    requires forall j: nat :: draws(j) < NUMBERS
    ensures InRange(FirstSeen(draws, k)) && NoDuplicates(FirstSeen(draws, k))
  {
    if k > 0 {
      DrawsAreValid(draws, k - 1);
    }
  }

  lemma {:induction false} ElementsCount(s: seq<int>)
    ensures |Elements(s)| <= |s|
    ensures |Elements(s)| == |s| <==> NoDuplicates(s)
    decreases |s|
  {
    if s == [] {
      assert Elements(s) == {};
    } else {
      var n := |s| - 1;
      var rest, last := s[..n], s[n];
      ElementsCount(rest);
      assert s == rest + [last];
      assert Elements(s) == Elements(rest) + {last};
      if last in rest {
        var i :| 0 <= i < n && s[i] == last;
        assert Elements(s) == Elements(rest);
      }
    }
  }

  /** Fewer numbers than there are leave one unseen. */
  lemma SomeUnseen(s: seq<int>) returns (n: int)
    requires |s| < NUMBERS
    ensures 1 <= n <= NUMBERS && n !in s
  {
    ElementsCount(s);
    var all := Interval(1, NUMBERS + 1);
    if all <= Elements(s) {
      SubsetSize(all, Elements(s));
      assert false;
    }
    n := Pick(all - Elements(s));
  }

  lemma NextUnseen(draws: nat -> nat, next: (nat, int) -> nat, used: nat, s: seq<int>) returns (hit: nat)
    requires |s| < NUMBERS && FairDraws(draws, next)
    ensures hit >= used && draws(hit) + 1 !in Elements(s)
  {
    var unseen := SomeUnseen(s);
    hit := next(used, unseen);
  }

  /** Draws until a number is new; `hit` is a position at which one is. */
  method DrawUnseen(draws: nat -> nat, from: nat, seen: set<int>, ghost chosen: seq<int>, ghost hit: nat)
    returns (num: int, used: nat)
    requires seen == Elements(chosen) && chosen == FirstSeen(draws, from)
    requires hit >= from && draws(hit) + 1 !in seen
    ensures num !in seen && FirstSeen(draws, used) == chosen + [num]
  {
    used := from;
    while true
      invariant from <= used <= hit && FirstSeen(draws, used) == chosen
      decreases hit - used
    {
      num := draws(used) + 1;
      used := used + 1;
      if num !in seen {
        return;
      }
    }
  }

  /** The winning numbers are the first `count` different draws; `used` draws were made. */
  method GenerateWinningNumbers(draws: nat -> nat, count: nat, ghost next: (nat, int) -> nat)
    returns (numbers: array<int>, used: nat)
    requires count <= NUMBERS && FairDraws(draws, next)
    ensures fresh(numbers) && numbers.Length == count
    ensures numbers[..] == FirstSeen(draws, used)
    ensures InRange(numbers[..]) && NoDuplicates(numbers[..])
  {
    numbers := new int[count];
    used := 0;
    var seen: set<int> := {};
    for i := 0 to count
      invariant numbers[..i] == FirstSeen(draws, used) && seen == Elements(numbers[..i])
    {
      ghost var chosen := numbers[..i];
      ghost var hit := NextUnseen(draws, next, used, chosen);
      var num;
      num, used := DrawUnseen(draws, used, seen, chosen, hit);
      numbers[i] := num;
      seen := seen + {num};
      assert numbers[..i + 1] == chosen + [num];
    }
    assert numbers[..] == numbers[..count];
    DrawsAreValid(draws, used);
  }

  // ---------------------------------------------------------------- the winner

  predicate Matches(ticket: seq<int>, winning: seq<int>)
  {
    |ticket| == |winning| && forall i :: 0 <= i < |winning| ==> winning[i] in ticket
  }

  method IsWinner(ticketNumbers: seq<int>, winningNumbers: seq<int>) returns (r: bool)
    ensures r <==> Matches(ticketNumbers, winningNumbers)
  {
    if |ticketNumbers| != |winningNumbers| {
      return false;
    }
    var ticketSet: set<int> := {};
    for i := 0 to |ticketNumbers|
      invariant ticketSet == Elements(ticketNumbers[..i])
    {
      assert ticketNumbers[..i + 1] == ticketNumbers[..i] + [ticketNumbers[i]];
      ticketSet := ticketSet + {ticketNumbers[i]};
    }
    assert ticketNumbers[..|ticketNumbers|] == ticketNumbers;
    for i := 0 to |winningNumbers|
      invariant forall j :: 0 <= j < i ==> winningNumbers[j] in ticketNumbers
    {
      if winningNumbers[i] !in ticketSet {
        return false;
      }
    }
    return true;
  }

  /**
   * The check looks one way only, yet against winning numbers without repeats it holds exactly for the tickets that have
   * the same numbers and no repeats themselves.
   */
  lemma MatchesSameNumbers(ticket: seq<int>, winning: seq<int>)
    requires NoDuplicates(winning)
    ensures Matches(ticket, winning) <==> Elements(ticket) == Elements(winning) && NoDuplicates(ticket)
  {
    ElementsCount(ticket);
    ElementsCount(winning);
    if Matches(ticket, winning) {
      SubsetSize(Elements(winning), Elements(ticket));
    }
    if Elements(ticket) == Elements(winning) {
      assert forall i :: 0 <= i < |winning| ==> winning[i] in Elements(winning);
    }
  }

  /** An accepted ticket wins against drawn numbers exactly when the two sets of numbers are equal. */
  lemma AcceptedTicketWins(ticket: seq<int>, draws: nat -> nat, used: nat)
    requires |ticket| == PICKS && NoDuplicates(ticket) && forall j: nat :: draws(j) < NUMBERS
    ensures Matches(ticket, FirstSeen(draws, used)) <==> Elements(ticket) == Elements(FirstSeen(draws, used))
  {
    DrawsAreValid(draws, used);
    MatchesSameNumbers(ticket, FirstSeen(draws, used));
  }

  method FindWinner(tickets: seq<Ticket>, winningNumbers: seq<int>) returns (winner: Option<Ticket>)
    ensures winner == None <==> forall i :: 0 <= i < |tickets| ==> !Matches(tickets[i].numbers, winningNumbers)
    ensures winner.Some? ==>
              exists i :: && 0 <= i < |tickets| && tickets[i] == winner.value
                          && Matches(tickets[i].numbers, winningNumbers)
                          && forall j :: 0 <= j < i ==> !Matches(tickets[j].numbers, winningNumbers)
  {
    for i := 0 to |tickets|
      invariant forall j :: 0 <= j < i ==> !Matches(tickets[j].numbers, winningNumbers)
    {
      var wins := IsWinner(tickets[i].numbers, winningNumbers);
      if wins {
        return Some(tickets[i]);
      }
    }
    return None;
  }
}
