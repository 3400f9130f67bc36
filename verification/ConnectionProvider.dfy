/** Connecting to a host that has several addresses: each attempt goes for the next one. */
module ConnectionProvider {
  import opened Wrappers

  /** What a call of the connect closure does: it tries an address, gives up for not resolving the host, or panics. */
  datatype Attempt<A> = Tries(address: A) | Fatal | Panics

  /** The answer of the resolver, asked only when it is needed. */
  type Resolver<A> = nat -> Option<seq<A>>

  function Resolved<A>(resolver: Resolver<A>, n: nat): seq<A> {
    if n == 0 then []
    else Resolved(resolver, n - 1) + if resolver(n - 1).Some? then resolver(n - 1).value else []
  }

  class ConnectContinuation<A> {
    var optAddrs: Option<seq<A>>

    constructor ()
      ensures optAddrs == None
    {
      optAddrs := None;
    }

    function Left(): seq<A>
      reads this
    {
      if optAddrs.Some? then optAddrs.value else []
    }

    /** One attempt. The addresses tried and those left are, together, all those resolved so far. */
    method Connect(resolver: Resolver<A>, asked: nat, ghost tried: seq<A>)
      returns (attempt: Attempt<A>, asked': nat)
      requires tried + Left() == Resolved(resolver, asked)
      modifies this
      ensures asked' == asked + if old(Left()) == [] then 1 else 0
      ensures attempt == if old(Left()) != [] then Tries(old(Left())[0])
                         else match resolver(asked)
                              case None => Fatal
                              case Some(addresses) => if addresses == [] then Panics else Tries(addresses[0])
      ensures (if attempt.Tries? then tried + [attempt.address] else tried) + Left() == Resolved(resolver, asked')
    {
      asked' := asked;
      if optAddrs.None? || optAddrs.value == [] {
        var resolution := resolver(asked);
        asked' := asked + 1;
        match resolution {
          case None =>
            return Fatal, asked';
          case Some(resolved) =>
            optAddrs := Some(resolved);
        }
      }
      var resolvedAddrs := optAddrs.value;
      if resolvedAddrs == [] {
        return Panics, asked';
      }
      attempt := Tries(resolvedAddrs[0]);
      optAddrs := Some(resolvedAddrs[1..]);
    }
  }

  /** So, while a host resolves to the same addresses, attempts go round all of them, in order. */
  lemma AttemptsGoRound<A>(resolver: Resolver<A>, addresses: seq<A>, asked: nat, tried: seq<A>, left: seq<A>, k: nat)
    requires forall i: nat | i < asked :: resolver(i) == Some(addresses)
    requires tried + left == Resolved(resolver, asked) && k < |tried|
    ensures 0 < |addresses| && tried[k] == addresses[k % |addresses|]
  {
    assert tried[k] == (tried + left)[k];
    RoundAfterRound(resolver, addresses, asked, k);
  }

  lemma {:induction false} RoundAfterRound<A>(resolver: Resolver<A>, addresses: seq<A>, rounds: nat, k: nat)
    requires forall i: nat | i < rounds :: resolver(i) == Some(addresses)
    requires k < |Resolved(resolver, rounds)|
    ensures |Resolved(resolver, rounds)| == rounds * |addresses|
    ensures 0 < |addresses| && Resolved(resolver, rounds)[k] == addresses[k % |addresses|]
  {
    var before := Resolved(resolver, rounds - 1);
    ResolvedLength(resolver, addresses, rounds - 1);
    ResolvedLength(resolver, addresses, rounds);
    if k < |before| {
      RoundAfterRound(resolver, addresses, rounds - 1, k);
    } else {
      SameRemainder(rounds - 1, k - |before|, k / |addresses|, k % |addresses|, |addresses|);
    }
  }

  lemma {:induction false} ResolvedLength<A>(resolver: Resolver<A>, addresses: seq<A>, rounds: nat)
    requires forall i: nat | i < rounds :: resolver(i) == Some(addresses)
    ensures |Resolved(resolver, rounds)| == rounds * |addresses|
  {
    if rounds > 0 {
      ResolvedLength(resolver, addresses, rounds - 1);
    }
  }

  lemma SameRemainder(quotient: nat, remainder: nat, quotient': nat, remainder': nat, size: nat)
    requires quotient * size + remainder == quotient' * size + remainder' && remainder < size && remainder' < size
    ensures remainder == remainder'
  {
    if quotient < quotient' {
      OneRoundMore(quotient, quotient', size);
    } else if quotient' < quotient {
      OneRoundMore(quotient', quotient, size);
    }
  }

  lemma {:induction false} OneRoundMore(fewer: nat, more: nat, size: nat)
    requires fewer < more
    ensures fewer * size + size <= more * size
  {
    if fewer < more - 1 {
      OneRoundMore(fewer, more - 1, size);
    }
  }
}
