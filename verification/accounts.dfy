/** The customer collection and the per-customer operations behind the
    `/account`, `/deposit`, `/withdraw` and `/balance` routes. */
module Accounts {
  import opened Results
  import opened Statements

  /** A customer record. The handlers change `name` and `statement` in
      place; `cpf` and `id` are never reassigned. */
  class Customer {
    const cpf: string
    const id: string
    var name: string
    var statement: seq<Transaction>

    /** A new record with an empty statement. The id comes from the caller. */
    constructor (cpf: string, name: string, id: string)
      ensures this.cpf == cpf && this.name == name && this.id == id
      ensures statement == []
    {
      this.cpf := cpf;
      this.id := id;
      this.name := name;
      statement := [];
    }

    /** `POST /deposit`: records a credit of `amount`, unconditionally. */
    method Deposit(description: string, amount: int, now: Timestamp)
      modifies this
      ensures statement == old(statement) + [Transaction(description, amount, now, Credit)]
      ensures GetBalance(statement) == GetBalance(old(statement)) + amount
      ensures name == old(name)
    {
      var entry := Transaction(description, amount, now, Credit);
      GetBalanceAppend(statement, entry);
      statement := statement + [entry];
    }

    /** `POST /withdraw`: refused when the statement is empty or the balance
        is below `amount`; otherwise records a 'withdraw' entry. */
    method Withdraw(description: string, amount: int, now: Timestamp) returns (outcome: Outcome)
      modifies this
      ensures outcome.Pass? <==> old(statement) != [] && amount <= GetBalance(old(statement))
      ensures outcome.Fail? ==> outcome.error == InsufficientFunds && statement == old(statement)
      ensures outcome.Pass? ==>
                statement == old(statement) + [Transaction(description, amount, now, TxType.Withdraw)]
      ensures outcome.Pass? ==>
                GetBalance(statement) == GetBalance(old(statement)) - amount && GetBalance(statement) >= 0
      ensures name == old(name)
    {
      if |statement| == 0 {
        return Fail(InsufficientFunds);
      }
      var balance := GetBalance(statement);
      if balance < amount {
        return Fail(InsufficientFunds);
      }
      var entry := Transaction(description, amount, now, TxType.Withdraw);
      GetBalanceAppend(statement, entry);
      statement := statement + [entry];
      outcome := Pass;
    }

    /** `PUT /account`: replaces the name and nothing else. */
    method Rename(newName: string)
      modifies this
      ensures name == newName
      ensures statement == old(statement)
    {
      name := newName;
    }
  }

  /** The tax identifiers of a list of customers, in order. */
  function Cpfs(cs: seq<Customer>): (keys: seq<string>)
    ensures |keys| == |cs|
    ensures forall i :: 0 <= i < |cs| ==> keys[i] == cs[i].cpf
  {
    seq(|cs|, i requires 0 <= i < |cs| => cs[i].cpf)
  }

  /** No two entries are equal. */
  ghost predicate Unique(keys: seq<string>) {
    forall i, j :: 0 <= i < j < |keys| ==> keys[i] != keys[j]
  }

  /** The position of the first occurrence of `key`, if any (`Array.find`). */
  function FindFirst(keys: seq<string>, key: string): (r: Option<nat>)
    ensures r.None? <==> key !in keys
    ensures r.Some? ==> r.value < |keys| && keys[r.value] == key
    ensures r.Some? ==> forall j :: 0 <= j < r.value ==> keys[j] != key
    decreases |keys|
  {
    if keys == [] then None
    else if keys[0] == key then Some(0)
    else match FindFirst(keys[1..], key)
      case None => None
      case Some(i) => Some(i + 1)
  }

  /** Any position holding `key` with no earlier occurrence is the one
      FindFirst returns. */
  lemma FindFirstIsFirst(keys: seq<string>, key: string, i: nat)
    requires i < |keys| && keys[i] == key
    requires forall j :: 0 <= j < i ==> keys[j] != key
    ensures FindFirst(keys, key) == Some(i)
  {
  }

  /** The list without its element at `k`, the others in their order. */
  function RemoveAt<T>(s: seq<T>, k: nat): (r: seq<T>)
    requires k < |s|
    ensures |r| == |s| - 1
    ensures forall i :: 0 <= i < k ==> r[i] == s[i]
    ensures forall i :: k <= i < |r| ==> r[i] == s[i + 1]
  {
    s[..k] + s[k + 1..]
  }

  /** `customers.splice(customer, 1)`: the object argument converts to the
      number NaN and then to the start index 0, so the first element goes,
      whichever customer was meant. */
  function SpliceAsWritten<T>(s: seq<T>): (r: seq<T>)
    ensures |r| == if s == [] then 0 else |s| - 1
    ensures forall i :: 0 <= i < |r| ==> r[i] == s[i + 1]
  {
    if s == [] then [] else s[1..]
  }

  /** Deleting the customer at any position but the first, as written,
      keeps that customer and removes the first one instead. */
  lemma SpliceAsWrittenMissesTarget(keys: seq<string>, k: nat)
    requires Unique(keys) && 0 < k < |keys|
    ensures keys[k] in SpliceAsWritten(keys)
    ensures keys[0] !in SpliceAsWritten(keys)
  {
  }

  /** The smallest case: two customers, the second one asks to be deleted. */
  lemma SpliceAsWrittenExample()
    ensures SpliceAsWritten(["111", "222"]) == ["222"]
  {
  }

  /** Removing position `k` from a duplicate-free list removes exactly that
      key: it is gone, every other key stays, and the list stays duplicate-free. */
  lemma RemoveAtRemovesOnlyTarget(keys: seq<string>, k: nat)
    requires Unique(keys) && k < |keys|
    ensures keys[k] !in RemoveAt(keys, k)
    ensures forall i :: 0 <= i < |keys| && i != k ==> keys[i] in RemoveAt(keys, k)
    ensures Unique(RemoveAt(keys, k))
  {
  }

  /** The customer collection. */
  class Ledger {
    var customers: seq<Customer>

    /** Tax identifiers are pairwise distinct. */
    ghost predicate Valid()
      reads this
    {
      Unique(Cpfs(customers))
    }

    constructor ()
      ensures Valid() && customers == []
    {
      customers := [];
    }

    /** The `verifyIfAccountExists` lookup: the first customer with the
        given tax identifier, or "not found". */
    method Lookup(cpf: string) returns (r: Result<Customer>)
      ensures r.Failure? <==> cpf !in Cpfs(customers)
      ensures r.Failure? ==> r.error == CustomerNotFound
      ensures r.Success? ==>
                var i := FindFirst(Cpfs(customers), cpf).value;
                r.value == customers[i] && r.value.cpf == cpf
    {
      var i := 0;
      while i < |customers|
        invariant 0 <= i <= |customers|
        invariant forall j :: 0 <= j < i ==> customers[j].cpf != cpf
      {
        if customers[i].cpf == cpf {
          FindFirstIsFirst(Cpfs(customers), cpf, i);
          return Success(customers[i]);
        }
        i := i + 1;
      }
      return Failure(CustomerNotFound);
    }

    /** `POST /account`: refused when the tax identifier is taken; otherwise
        one record with an empty statement is appended. */
    method CreateAccount(cpf: string, name: string, id: string) returns (r: Outcome)
      requires Valid()
      modifies this
      ensures Valid()
      ensures r.Fail? <==> cpf in Cpfs(old(customers))
      ensures r.Fail? ==> r.error == CustomerAlreadyExists && customers == old(customers)
      ensures r.Pass? ==>
                |customers| == |old(customers)| + 1 && customers[..|old(customers)|] == old(customers)
      ensures r.Pass? ==>
                var c := customers[|old(customers)|];
                fresh(c) && c.cpf == cpf && c.name == name && c.id == id && c.statement == []
    {
      if cpf in Cpfs(customers) {
        return Fail(CustomerAlreadyExists);
      }
      var c := new Customer(cpf, name, id);
      customers := customers + [c];
      assert customers[..|customers| - 1] == old(customers);
      r := Pass;
    }

    /** `DELETE /account` as written: the first customer is removed, not
        necessarily `c`. */
    method DeleteAsWritten(c: Customer)
      requires Valid() && c in customers
      modifies this
      ensures Valid()
      ensures customers == SpliceAsWritten(old(customers))
    {
      customers := customers[1..];
    }

    /** `DELETE /account` as intended: the customer with `c`'s tax
        identifier is removed and every other customer stays, in order. */
    method DeleteAccount(c: Customer)
      requires Valid() && c in customers
      modifies this
      ensures Valid()
      ensures c !in customers
      ensures forall d :: d in customers <==> d in old(customers) && d != c
      ensures |customers| == |old(customers)| - 1
      ensures IsSubsequence(customers, old(customers))
    {
      var k := FindFirst(Cpfs(customers), c.cpf).value;
      RemoveAtRemovesOnlyTarget(Cpfs(customers), k);
      assert Cpfs(RemoveAt(customers, k)) == RemoveAt(Cpfs(customers), k);
      RemoveAtIsSubsequence(customers, k);
      customers := RemoveAt(customers, k);
    }
  }

  /** Removing one element leaves a subsequence. */
  lemma {:induction false} RemoveAtIsSubsequence<T>(s: seq<T>, k: nat)
    requires k < |s|
    ensures IsSubsequence(RemoveAt(s, k), s)
    decreases k
  {
    if k == 0 {
      assert RemoveAt(s, 0) == s[1..];
      SubsequenceReflexive(s[1..]);
    } else {
      RemoveAtIsSubsequence(s[1..], k - 1);
      assert RemoveAt(s, k)[1..] == RemoveAt(s[1..], k - 1);
    }
  }

  lemma {:induction false} SubsequenceReflexive<T>(s: seq<T>)
    ensures IsSubsequence(s, s)
    decreases |s|
  {
    if s != [] {
      SubsequenceReflexive(s[1..]);
    }
  }

  /** Two accounts, a deposit and withdrawals, as a client sees them. */
  method Scenario(t1: Timestamp, t2: Timestamp, t3: Timestamp)
  {
    var ledger := new Ledger();
    var created := ledger.CreateAccount("123", "Alice", "id-1");
    assert created == Pass;
    var c := ledger.customers[0];
    var found := ledger.Lookup("123");
    assert found == Success(c);
    c.Deposit("salary", 100, t1);
    assert GetBalance(c.statement) == 100;
    var w := c.Withdraw("rent", 150, t2);
    assert w == Fail(InsufficientFunds) && GetBalance(c.statement) == 100;
    w := c.Withdraw("food", 40, t3);
    assert w == Pass && GetBalance(c.statement) == 60;
    var again := ledger.CreateAccount("123", "Bob", "id-2");
    assert again == Fail(CustomerAlreadyExists);
  }
}
