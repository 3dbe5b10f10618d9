/** The chain's bank: who holds how much of which coin, and the total held of each coin. */
module Bank {
  import opened Outcome

  type Addr = string
  type Denom = string
  type Book = map<(Addr, Denom), nat>

  datatype Coin = Coin(denom: Denom, amount: nat)

  function Bal(b: Book, a: Addr, d: Denom): nat {
    if (a, d) in b then b[(a, d)] else 0
  }

  function Credit(b: Book, a: Addr, d: Denom, n: nat): Book { b[(a, d) := Bal(b, a, d) + n] }

  function Debit(b: Book, a: Addr, d: Denom, n: nat): Book
    requires n <= Bal(b, a, d)
  {
    b[(a, d) := Bal(b, a, d) - n]
  }

  /** A transfer fails when the payer holds too little or nothing is sent; payer and payee may coincide. */
  function Send(b: Book, from: Addr, to: Addr, d: Denom, n: nat): Option<Book> {
    if 0 < n <= Bal(b, from, d) then Some(Credit(Debit(b, from, d, n), to, d, n)) else None
  }

  /** Coin d moved from one account to another, and nothing else changed. */
  ghost predicate Moved(b: Book, b': Book, from: Addr, to: Addr, d: Denom, n: nat) {
    forall x, e :: (
      Bal(b', x, e) ==
      Bal(b, x, e) - (if x == from && e == d then n else 0) + (if x == to && e == d then n else 0))
  }

  lemma SendMoves(b: Book, from: Addr, to: Addr, d: Denom, n: nat)
    ensures Send(b, from, to, d, n).Some? <==> 0 < n <= Bal(b, from, d)
    ensures Send(b, from, to, d, n).Some? ==> Moved(b, Send(b, from, to, d, n).value, from, to, d, n)
    ensures Send(b, from, to, d, n).Some? ==>
      forall e :: Total(Send(b, from, to, d, n).value, e) == Total(b, e)
  {
    if 0 < n <= Bal(b, from, d) {
      forall e ensures Total(Send(b, from, to, d, n).value, e) == Total(b, e) {
        TotalDebit(b, from, d, n, e);
        TotalCredit(Debit(b, from, d, n), to, d, n, e);
      }
    }
  }

  /** What all accounts together hold of coin d. */
  ghost function Total(b: Book, d: Denom): nat {
    if b == map[] then 0 else
    var k :| k in b;
    Held(b, k, d) + Total(b - {k}, d)
  }

  ghost function Held(b: Book, k: (Addr, Denom), d: Denom): nat
  {
    if k in b && k.1 == d then b[k] else 0
  }

  lemma {:induction false} TotalSplit(b: Book, k: (Addr, Denom), d: Denom)
    ensures Total(b, d) == Held(b, k, d) + Total(b - {k}, d)
    decreases |b|
  {
    if k !in b {
      assert b - {k} == b;
    } else {
      var j :| j in b && Total(b, d) == Held(b, j, d) + Total(b - {j}, d);
      if j != k {
        TotalSplit(b - {j}, k, d);
        TotalSplit(b - {k}, j, d);
        assert b - {j} - {k} == b - {k} - {j};
        assert Held(b - {j}, k, d) == Held(b, k, d);
        assert Held(b - {k}, j, d) == Held(b, j, d);
      }
    }
  }

  lemma TotalSet(b: Book, k: (Addr, Denom), v: nat, d: Denom)
    ensures Total(b[k := v], d) + Held(b, k, d) == Total(b, d) + if k.1 == d then v else 0
  {
    TotalSplit(b, k, d);
    TotalSplit(b[k := v], k, d);
    assert b[k := v] - {k} == b - {k};
  }

  lemma TotalCredit(b: Book, a: Addr, e: Denom, n: nat, d: Denom)
    ensures Total(Credit(b, a, e, n), d) == Total(b, d) + if e == d then n else 0
  {
    TotalSet(b, (a, e), Bal(b, a, e) + n, d);
  }

  lemma TotalDebit(b: Book, a: Addr, e: Denom, n: nat, d: Denom)
    requires n <= Bal(b, a, e)
    ensures Total(Debit(b, a, e, n), d) == Total(b, d) - if e == d then n else 0
  {
    TotalSet(b, (a, e), Bal(b, a, e) - n, d);
  }

  lemma HeldWithinTotal(b: Book, a: Addr, d: Denom)
    ensures Bal(b, a, d) <= Total(b, d)
  {
    TotalSplit(b, (a, d), d);
  }
}
