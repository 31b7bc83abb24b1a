// The write-back cache of accounts over the tree: live objects, a dirty set fed by callbacks that
// fire once, and commits that write what is dirty.
module AccountCache {
  import opened Common
  import opened Ledger

  /** An account's nonce and what it has of each coin; entries of zero may linger. */
  datatype Account = Account(nonce: nat, balances: map<Coin, int>)

  /** An account as stored: positive balances only, by descending symbol. */
  datatype Record = Record(nonce: nat, balances: seq<(Coin, int)>)

  function BalanceIn(x: Account, c: Coin): int {
    if c in x.balances then x.balances[c] else 0
  }

  function Positive(m: map<Coin, int>): map<Coin, int> {
    map c | c in m && m[c] > 0 :: m[c]
  }

  ghost predicate Descends(s: seq<(Coin, int)>) {
    forall i, j :: 0 <= i < j < |s| ==> s[i].0 > s[j].0
  }

  /** s lists exactly the entries of m. */
  ghost predicate Lists(s: seq<(Coin, int)>, m: map<Coin, int>) {
    (forall i :: 0 <= i < |s| ==> s[i].0 in m && m[s[i].0] == s[i].1)
    && forall c :: c in m ==> exists i :: 0 <= i < |s| && s[i].0 == c
  }

  ghost predicate IsRecordOf(r: Record, x: Account) {
    r.nonce == x.nonce && Descends(r.balances) && Lists(r.balances, Positive(x.balances))
  }

  /** What is stored does not depend on the order a map is walked in. */
  lemma RecordUnique(r: Record, q: Record, x: Account)
    requires IsRecordOf(r, x) && IsRecordOf(q, x)
    ensures r == q
  {
    ListUnique(r.balances, q.balances, Positive(x.balances));
  }

  lemma {:induction false} ListUnique(s: seq<(Coin, int)>, t: seq<(Coin, int)>, m: map<Coin, int>)
    requires Descends(s) && Descends(t) && Lists(s, m) && Lists(t, m)
    ensures s == t
  {
    hide Descends, Lists;
    if s == [] || t == [] {
      EmptyIff(s, m);
      EmptyIff(t, m);
    } else {
      SameHead(s, t, m);
      TailLists(s, m);
      TailLists(t, m);
      ListUnique(s[1..], t[1..], m - {s[0].0});
      assert s == [s[0]] + s[1..] && t == [t[0]] + t[1..];
    }
  }

  lemma EmptyIff(s: seq<(Coin, int)>, m: map<Coin, int>)
    requires Lists(s, m)
    ensures s == [] <==> m == map[]
  {
    if s != [] {
      assert s[0].0 in m;
    }
  }

  lemma SameHead(s: seq<(Coin, int)>, t: seq<(Coin, int)>, m: map<Coin, int>)
    requires Descends(s) && Descends(t) && Lists(s, m) && Lists(t, m) && s != [] && t != []
    ensures s[0] == t[0]
  {
    assert s[0].0 in m && t[0].0 in m;
    var i :| 0 <= i < |s| && s[i].0 == t[0].0;
    var j :| 0 <= j < |t| && t[j].0 == s[0].0;
  }

  lemma TailLists(s: seq<(Coin, int)>, m: map<Coin, int>)
    requires s != [] && Descends(s) && Lists(s, m)
    ensures Descends(s[1..]) && Lists(s[1..], m - {s[0].0})
  {
    forall c | c in m - {s[0].0}
      ensures exists i :: 0 <= i < |s[1..]| && s[1..][i].0 == c
    {
      var i :| 0 <= i < |s| && s[i].0 == c;
      assert s[1..][i - 1].0 == c;
    }
  }

  /** Reading a stored list back. */
  function FromList(s: seq<(Coin, int)>): map<Coin, int> {
    if s == [] then map[] else FromList(s[..|s| - 1])[s[|s| - 1].0 := s[|s| - 1].1]
  }

  function Decode(r: Record): Account { Account(r.nonce, FromList(r.balances)) }

  lemma {:induction false} FromListIs(s: seq<(Coin, int)>, m: map<Coin, int>)
    requires Descends(s) && Lists(s, m)
    ensures FromList(s) == m
  {
    hide Descends, Lists;
    if s == [] {
      NothingListed(m);
    } else {
      var (n, x) := (|s| - 1, s[|s| - 1]);
      InitLists(s, m);
      FromListIs(s[..n], m - {x.0});
      assert m == (m - {x.0})[x.0 := x.1];
    }
  }

  lemma NothingListed(m: map<Coin, int>)
    requires Lists([], m)
    ensures m == map[]
  {
    assert forall c :: c !in m;
  }

  lemma InitLists(s: seq<(Coin, int)>, m: map<Coin, int>)
    requires s != [] && Descends(s) && Lists(s, m)
    ensures var (n, x) := (|s| - 1, s[|s| - 1]);
            Descends(s[..n]) && Lists(s[..n], m - {x.0}) && x.0 in m && m[x.0] == x.1
  {
    var (n, x) := (|s| - 1, s[|s| - 1]);
    var (t, rest) := (s[..n], m - {x.0});
    forall i | 0 <= i < |t|
      ensures t[i].0 in rest && rest[t[i].0] == t[i].1
    {
      assert t[i] == s[i] && s[i].0 > s[n].0;
    }
    forall c | c in rest
      ensures exists i :: 0 <= i < |t| && t[i].0 == c
    {
      var i :| 0 <= i < |s| && s[i].0 == c;
      assert t[i].0 == c;
    }
  }

  /** A stored account is read back without its empty entries, which nobody can tell. */
  lemma DecodeRecord(r: Record, x: Account)
    requires IsRecordOf(r, x)
    ensures Decode(r) == x.(balances := Positive(x.balances))
    ensures forall c :: BalanceIn(Decode(r), c) == if BalanceIn(x, c) > 0 then BalanceIn(x, c) else 0
  {
    FromListIs(r.balances, Positive(x.balances));
  }

  // ---------------------------------------------------------------------------------
  // Encoding an account
  // ---------------------------------------------------------------------------------

  /** The coins an account has something of, by descending symbol. */
  method GetCoins(balances: map<Coin, int>) returns (keys: seq<Coin>)
    ensures forall i, j :: 0 <= i < j < |keys| ==> keys[i] > keys[j]
    ensures forall c :: c in keys <==> c in Positive(balances)
  {
    var found: seq<Coin> := [];
    var rest := balances.Keys;
    while rest != {}
      invariant rest <= balances.Keys
      invariant forall i, j :: 0 <= i < j < |found| ==> found[i] != found[j]
      invariant forall c :: c in found <==> c in Positive(balances) && c !in rest
      decreases |rest|
    {
      var c :| c in rest;
      rest := rest - {c};
      if balances[c] > 0 {
        found := found + [c];
      }
    }
    keys := SortDesc(found, Symbol);
    SortedDistinct(found);
  }

  method Encode(x: Account) returns (r: Record)
    ensures IsRecordOf(r, x)
  {
    var keys := GetCoins(x.balances);
    var list: seq<(Coin, int)> := [];
    for i := 0 to |keys|
      invariant forall k :: 0 <= k < |keys| ==> keys[k] in Positive(x.balances)
      invariant |list| == i && forall k :: 0 <= k < i ==> list[k].0 == keys[k] && list[k].1 == x.balances[keys[k]]
    {
      list := list + [(keys[i], x.balances[keys[i]])];
    }
    r := Record(x.nonce, list);
    forall c | c in Positive(x.balances)
      ensures exists i :: 0 <= i < |list| && list[i].0 == c
    {
      assert c in keys;
      var i :| 0 <= i < |keys| && keys[i] == c;
      assert list[i].0 == c;
    }
  }

  function Symbol(c: Coin): int { c }

  lemma SortedDistinct(found: seq<Coin>)
    requires forall i, j :: 0 <= i < j < |found| ==> found[i] != found[j]
    ensures var keys := SortDesc(found, Symbol);
            (forall i, j :: 0 <= i < j < |keys| ==> keys[i] > keys[j]) && forall c :: c in keys <==> c in found
  {
    SortDescSorts(found, Symbol);
    var keys := SortDesc(found, Symbol);
    hide SortDesc;
    DistinctCount(found);
    assert forall c :: multiset(keys)[c] <= 1;
    forall c
      ensures c in keys <==> c in found
    {
      assert c in keys <==> c in multiset(keys);
      assert c in found <==> c in multiset(found);
    }
    forall i, j | 0 <= i < j < |keys|
      ensures keys[i] > keys[j]
    {
      assert Symbol(keys[i]) >= Symbol(keys[j]);
      if keys[i] == keys[j] {
        TwiceCounted(keys, i, j);
      }
    }
  }

  lemma {:induction false} DistinctCount(s: seq<Coin>)
    requires forall i, j :: 0 <= i < j < |s| ==> s[i] != s[j]
    ensures forall c :: multiset(s)[c] <= 1
  {
    if s != [] {
      var n := |s| - 1;
      DistinctCount(s[..n]);
      assert s == s[..n] + [s[n]];
      assert s[n] !in s[..n];
    }
  }

  lemma TwiceCounted(s: seq<Coin>, i: nat, j: nat)
    requires i < j < |s| && s[i] == s[j]
    ensures multiset(s)[s[i]] >= 2
  {
    assert s == s[..j] + [s[j]] + s[j + 1..];
    assert s[i] in s[..j];
  }

  // ---------------------------------------------------------------------------------
  // The cache
  // ---------------------------------------------------------------------------------

  /** A live account: what it holds, and whether its callback is still in place. */
  datatype StateAccount = StateAccount(data: Account, onDirty: bool)

  /**
   * Every account is live, or stored, or both. A live one whose callback is gone is in the dirty set;
   * what is not dirty is as stored.
   */
  ghost predicate Coherent(tree: map<Address, Record>, live: map<Address, StateAccount>, dirty: set<Address>,
                           accounts: map<Address, Account>) {
    accounts.Keys == live.Keys + tree.Keys && dirty <= live.Keys
    && (forall a :: a in live ==> live[a].data == accounts[a] && (live[a].onDirty || a in dirty))
    && (forall a :: a in accounts && a !in dirty ==> a in tree && Decode(tree[a]) == accounts[a])
  }

  /** What anyone can tell about accounts: nonces and balances, nothing where there is no account. */
  function AccountOr(accounts: map<Address, Account>, a: Address): Account {
    if a in accounts then accounts[a] else Account(0, map[])
  }

  function BalanceAt(accounts: map<Address, Account>, a: Address, c: Coin): int {
    BalanceIn(AccountOr(accounts, a), c)
  }

  function NonceAt(accounts: map<Address, Account>, a: Address): nat { AccountOr(accounts, a).nonce }

  /** The accounts once a's balance of c is set; an account that was not there now is. */
  function WithBalance(accounts: map<Address, Account>, a: Address, c: Coin, amount: int): map<Address, Account> {
    var x := AccountOr(accounts, a);
    accounts[a := x.(balances := x.balances[c := amount])]
  }

  /** Adding nothing still creates the account. */
  function WithAdded(accounts: map<Address, Account>, a: Address, c: Coin, amount: int): map<Address, Account> {
    if amount == 0 then accounts[a := AccountOr(accounts, a)]
    else WithBalance(accounts, a, c, BalanceAt(accounts, a, c) + amount)
  }

  function WithNonce(accounts: map<Address, Account>, a: Address, nonce: nat): map<Address, Account> {
    accounts[a := AccountOr(accounts, a).(nonce := nonce)]
  }

  /** Writes are what a plain map of balances and nonces would do. */
  lemma WritesAnswer(accounts: map<Address, Account>, a: Address, c: Coin, amount: int, nonce: nat)
    ensures forall b, d :: BalanceAt(WithBalance(accounts, a, c, amount), b, d)
                           == if b == a && d == c then amount else BalanceAt(accounts, b, d)
    ensures forall b, d :: BalanceAt(WithAdded(accounts, a, c, amount), b, d)
                           == BalanceAt(accounts, b, d) + if b == a && d == c then amount else 0
    ensures forall b, d :: BalanceAt(WithNonce(accounts, a, nonce), b, d) == BalanceAt(accounts, b, d)
    ensures forall b :: NonceAt(WithBalance(accounts, a, c, amount), b) == NonceAt(accounts, b)
    ensures forall b :: NonceAt(WithAdded(accounts, a, c, amount), b) == NonceAt(accounts, b)
    ensures forall b :: NonceAt(WithNonce(accounts, a, nonce), b) == if b == a then nonce else NonceAt(accounts, b)
  {
  }

  /** A commit drops what is not positive of the accounts written. */
  ghost function Settled(accounts: map<Address, Account>, dirty: set<Address>): map<Address, Account> {
    map a | a in accounts ::
      if a in dirty then accounts[a].(balances := Positive(accounts[a].balances)) else accounts[a]
  }

  /** Which nobody can tell unless a written account had less than nothing of a coin. */
  lemma SettledAnswers(accounts: map<Address, Account>, dirty: set<Address>)
    requires dirty <= accounts.Keys
    ensures forall a :: NonceAt(Settled(accounts, dirty), a) == NonceAt(accounts, a)
    ensures (forall a, c :: BalanceAt(Settled(accounts, dirty), a, c) == BalanceAt(accounts, a, c))
            <==> forall a, c :: a in dirty ==> BalanceAt(accounts, a, c) >= 0
  {
    forall a, c
      ensures BalanceAt(Settled(accounts, dirty), a, c)
           == if a in dirty && BalanceAt(accounts, a, c) < 0 then 0 else BalanceAt(accounts, a, c)
    {
    }
  }

  /** A dirty account with a debt is one on which a commit shows: the debt is forgotten. */
  lemma DebtIsForgotten()
    ensures var accounts := map[1 := Account(0, map[5 := -3])];
            BalanceAt(accounts, 1, 5) == -3 && BalanceAt(Settled(accounts, {1}), 1, 5) == 0
  {
  }

  class AccountDB {
    var tree: map<Address, Record>
    var live: map<Address, StateAccount>
    var dirty: set<Address>
    /** The accounts as their users see them. */
    ghost var accounts: map<Address, Account>

    ghost predicate Valid()
      reads this
    {
      Coherent(tree, live, dirty, accounts)
    }

    constructor (tree: map<Address, Record>)
      ensures Valid() && this.tree == tree && live == map[] && dirty == {}
      ensures accounts == map a | a in tree :: Decode(tree[a])
    {
      this.tree, live, dirty := tree, map[], {};
      accounts := map a | a in tree :: Decode(tree[a]);
    }

    /** Makes an account live, from the tree if need be; none if there is no such account. */
    method GetStateAccount(a: Address) returns (found: bool)
      requires Valid()
      modifies this`live
      ensures Valid() && (found <==> a in accounts)
      ensures found ==> a in live && live[a].data == accounts[a]
    {
      hide Coherent, Decode;
      CoherentKeys(tree, live, dirty, accounts);
      if a in live {
        return true;
      }
      if a !in tree {
        return false;
      }
      LoadedCoherent(tree, live, dirty, accounts, a);
      live := live[a := StateAccount(Decode(tree[a]), true)];
      CoherentKeys(tree, live, dirty, accounts);
      found := true;
    }

    /** Makes an account live, a new one if there is none; a new one is dirty at once. */
    method GetOrNewStateObject(a: Address)
      requires Valid()
      modifies this`live, this`dirty, this`accounts
      ensures Valid() && a in live && live[a].data == accounts[a]
      ensures accounts == old(accounts)[a := AccountOr(old(accounts), a)]
      ensures dirty == if a in old(accounts) then old(dirty) else old(dirty) + {a}
    {
      hide Coherent;
      var found := GetStateAccount(a);
      if !found {
        ChangedCoherent(tree, live, dirty, accounts, a, Account(0, map[]), false);
        live := live[a := StateAccount(Account(0, map[]), false)];
        dirty := dirty + {a};
        accounts := accounts[a := Account(0, map[])];
      }
    }

    method GetBalance(a: Address, c: Coin) returns (amount: int)
      requires Valid()
      modifies this`live
      ensures Valid() && amount == BalanceAt(accounts, a, c)
    {
      hide Coherent;
      var found := GetStateAccount(a);
      amount := if found then BalanceIn(live[a].data, c) else 0;
    }

    method GetNonce(a: Address) returns (nonce: nat)
      requires Valid()
      modifies this`live
      ensures Valid() && nonce == NonceAt(accounts, a)
    {
      hide Coherent;
      var found := GetStateAccount(a);
      nonce := if found then live[a].data.nonce else 0;
    }

    /** Writes to a live account; its callback, if still in place, fires once and marks it dirty. */
    method Store(a: Address, x: Account)
      requires Valid() && a in live
      modifies this`live, this`dirty, this`accounts
      ensures Valid() && accounts == old(accounts)[a := x] && dirty == old(dirty) + {a}
    {
      hide Coherent;
      CoherentKeys(tree, live, dirty, accounts);
      ChangedCoherent(tree, live, dirty, accounts, a, x, false);
      if live[a].onDirty {
        dirty := dirty + {a};
      }
      assert dirty == old(dirty) + {a};
      live := live[a := StateAccount(x, false)];
      accounts := accounts[a := x];
    }

    method SetBalance(a: Address, c: Coin, amount: int)
      requires Valid()
      modifies this`live, this`dirty, this`accounts
      ensures Valid() && accounts == WithBalance(old(accounts), a, c, amount) && dirty == old(dirty) + {a}
    {
      hide Coherent;
      GetOrNewStateObject(a);
      var x := live[a].data;
      Store(a, x.(balances := x.balances[c := amount]));
    }

    method AddBalance(a: Address, c: Coin, amount: int)
      requires Valid()
      modifies this`live, this`dirty, this`accounts
      ensures Valid() && accounts == WithAdded(old(accounts), a, c, amount)
    {
      hide Coherent;
      GetOrNewStateObject(a);
      if amount != 0 {
        var x := live[a].data;
        Store(a, x.(balances := x.balances[c := BalanceIn(x, c) + amount]));
      }
    }

    method SubBalance(a: Address, c: Coin, amount: int)
      requires Valid()
      modifies this`live, this`dirty, this`accounts
      ensures Valid() && accounts == WithAdded(old(accounts), a, c, -amount)
    {
      hide Coherent;
      GetOrNewStateObject(a);
      if amount != 0 {
        var x := live[a].data;
        Store(a, x.(balances := x.balances[c := BalanceIn(x, c) - amount]));
      }
    }

    method SetNonce(a: Address, nonce: nat)
      requires Valid()
      modifies this`live, this`dirty, this`accounts
      ensures Valid() && accounts == WithNonce(old(accounts), a, nonce) && dirty == old(dirty) + {a}
    {
      hide Coherent;
      GetOrNewStateObject(a);
      Store(a, live[a].data.(nonce := nonce));
    }

    /** Writes the live accounts that are dirty to the tree. */
    method WriteDirty()
      requires dirty <= live.Keys
      modifies this`tree, this`dirty
      ensures dirty == {} && Written(old(tree), tree, live, old(dirty))
    {
      hide IsRecordOf, Written;
      ghost var tree0, dirty0 := tree, dirty;
      NothingWritten(tree, live, dirty);
      while dirty != {}
        invariant dirty <= dirty0 && Written(tree0, tree, live, dirty0 - dirty)
        decreases |dirty|
      {
        var a :| a in dirty;
        var r := Encode(live[a].data);
        WrittenNext(tree0, tree, live, dirty0, dirty, a, r);
        tree := tree[a := r];
        dirty := dirty - {a};
      }
      AllWritten(tree0, tree, live, dirty0);
    }

    /** Writes every dirty account to the tree, which then holds all accounts, and forgets the live ones. */
    method Commit()
      requires Valid()
      modifies this
      ensures Valid() && live == map[] && dirty == {}
      ensures accounts == Settled(old(accounts), old(dirty))
      ensures tree.Keys == accounts.Keys && forall a :: a in tree ==> Decode(tree[a]) == accounts[a]
    {
      hide Coherent, Written, Decode, Settled;
      CoherentKeys(tree, live, dirty, accounts);
      ghost var tree0, dirty0 := tree, dirty;
      WriteDirty();
      CommittedCoherent(tree0, tree, live, dirty0, accounts);
      live := map[];
      accounts := Settled(accounts, dirty0);
    }
  }

  /** The accounts in done have been written, the rest of the tree is as it was. */
  ghost predicate Written(tree0: map<Address, Record>, tree: map<Address, Record>, live: map<Address, StateAccount>,
                          done: set<Address>) {
    tree.Keys == tree0.Keys + done && done <= live.Keys
    && forall a :: a in tree ==> if a in done then IsRecordOf(tree[a], live[a].data) else tree[a] == tree0[a]
  }

  lemma NothingWritten(tree: map<Address, Record>, live: map<Address, StateAccount>, dirty: set<Address>)
    ensures Written(tree, tree, live, dirty - dirty)
  {
  }

  lemma WrittenNext(tree0: map<Address, Record>, tree: map<Address, Record>, live: map<Address, StateAccount>,
                    dirty0: set<Address>, dirty: set<Address>, a: Address, r: Record)
    requires dirty <= dirty0 && Written(tree0, tree, live, dirty0 - dirty)
    requires a in dirty && a in live && IsRecordOf(r, live[a].data)
    ensures Written(tree0, tree[a := r], live, dirty0 - (dirty - {a}))
    ensures |dirty - {a}| < |dirty|
  {
    hide Written, IsRecordOf;
    WrittenMore(tree0, tree, live, dirty0 - dirty, a, r);
    OneLess(dirty0, dirty, a);
  }

  lemma WrittenMore(tree0: map<Address, Record>, tree: map<Address, Record>, live: map<Address, StateAccount>,
                    done: set<Address>, a: Address, r: Record)
    requires Written(tree0, tree, live, done) && a in live && IsRecordOf(r, live[a].data)
    ensures Written(tree0, tree[a := r], live, done + {a})
  {
    hide IsRecordOf;
  }

  lemma OneLess(all: set<Address>, left: set<Address>, a: Address)
    requires left <= all && a in left
    ensures all - (left - {a}) == all - left + {a} && |left - {a}| < |left|
  {
  }

  lemma AllWritten(tree0: map<Address, Record>, tree: map<Address, Record>, live: map<Address, StateAccount>,
                   dirty0: set<Address>)
    requires Written(tree0, tree, live, dirty0 - {})
    ensures Written(tree0, tree, live, dirty0)
  {
    assert dirty0 - {} == dirty0;
  }

  lemma CommittedCoherent(tree0: map<Address, Record>, tree: map<Address, Record>, live: map<Address, StateAccount>,
                          dirty: set<Address>, accounts: map<Address, Account>)
    requires Coherent(tree0, live, dirty, accounts) && Written(tree0, tree, live, dirty)
    ensures Coherent(tree, map[], {}, Settled(accounts, dirty))
    ensures tree.Keys == Settled(accounts, dirty).Keys
    ensures forall a :: a in tree ==> Decode(tree[a]) == Settled(accounts, dirty)[a]
  {
    hide IsRecordOf, Decode;
    forall a | a in tree
      ensures a in accounts && Decode(tree[a]) == Settled(accounts, dirty)[a]
    {
      if a in dirty {
        DecodeRecord(tree[a], accounts[a]);
      }
    }
  }

  lemma CoherentKeys(tree: map<Address, Record>, live: map<Address, StateAccount>, dirty: set<Address>,
                     accounts: map<Address, Account>)
    requires Coherent(tree, live, dirty, accounts)
    ensures accounts.Keys == live.Keys + tree.Keys && dirty <= live.Keys
    ensures forall a :: a in live ==> live[a].data == accounts[a] && (live[a].onDirty || a in dirty)
  {
  }

  lemma LoadedCoherent(tree: map<Address, Record>, live: map<Address, StateAccount>, dirty: set<Address>,
                       accounts: map<Address, Account>, a: Address)
    requires Coherent(tree, live, dirty, accounts) && a in tree && a !in live
    ensures Coherent(tree, live[a := StateAccount(Decode(tree[a]), true)], dirty, accounts)
  {
    hide Decode;
  }

  /** A live account may change in any way once it is dirty. */
  lemma ChangedCoherent(tree: map<Address, Record>, live: map<Address, StateAccount>, dirty: set<Address>,
                        accounts: map<Address, Account>, a: Address, x: Account, onDirty: bool)
    requires Coherent(tree, live, dirty, accounts)
    ensures Coherent(tree, live[a := StateAccount(x, onDirty)], dirty + {a}, accounts[a := x])
  {
    hide Decode;
  }

  // ---------------------------------------------------------------------------------
  // Any interleaving answers as a plain map would
  // ---------------------------------------------------------------------------------

  datatype CacheOp = Setting(a: Address, c: Coin, amount: int) | Adding(a: Address, c: Coin, amount: int)
    | Numbering(a: Address, nonce: nat) | Reading(a: Address, c: Coin) | ReadingNonce(a: Address) | Committing

  /** A ledger without a cache: balances and nonces in two maps. */
  datatype Plain = Plain(balances: Balances, nonces: map<Address, nat>)

  function PlainNonce(p: Plain, a: Address): nat { if a in p.nonces then p.nonces[a] else 0 }

  function PlainStep(p: Plain, op: CacheOp): Plain {
    match op
    case Setting(a, c, amount) => p.(balances := p.balances[(a, c) := amount])
    case Adding(a, c, amount) => p.(balances := Credit(p.balances, a, c, amount))
    case Numbering(a, nonce) => p.(nonces := p.nonces[a := nonce])
    case Reading(_, _) => p
    case ReadingNonce(_) => p
    case Committing => p
  }

  function PlainRun(p: Plain, ops: seq<CacheOp>): Plain {
    if ops == [] then p else PlainStep(PlainRun(p, ops[..|ops| - 1]), ops[|ops| - 1])
  }

  function PlainAnswer(p: Plain, op: CacheOp): seq<int> {
    match op
    case Reading(a, c) => [BalanceOf(p.balances, a, c)]
    case ReadingNonce(a) => [PlainNonce(p, a)]
    case _ => []
  }

  /** What each read in turn should answer. */
  function PlainAnswers(p: Plain, ops: seq<CacheOp>): seq<int> {
    if ops == [] then []
    else
      var n := |ops| - 1;
      PlainAnswers(p, ops[..n]) + PlainAnswer(PlainRun(p, ops[..n]), ops[n])
  }

  ghost predicate Tracks(accounts: map<Address, Account>, p: Plain) {
    (forall a, c :: BalanceAt(accounts, a, c) == BalanceOf(p.balances, a, c))
    && forall a :: NonceAt(accounts, a) == PlainNonce(p, a)
  }

  /** No balance is negative when a commit comes. */
  ghost predicate Creditable(p: Plain, ops: seq<CacheOp>) {
    forall i :: 0 <= i < |ops| && ops[i].Committing? ==>
      forall a, c :: BalanceOf(PlainRun(p, ops[..i]).balances, a, c) >= 0
  }

  lemma SettingTracks(accounts: map<Address, Account>, p: Plain, a: Address, c: Coin, amount: int)
    requires Tracks(accounts, p)
    ensures Tracks(WithBalance(accounts, a, c, amount), PlainStep(p, Setting(a, c, amount)))
  {
    WritesAnswer(accounts, a, c, amount, 0);
    hide BalanceAt, NonceAt, WithBalance;
  }

  lemma AddingTracks(accounts: map<Address, Account>, p: Plain, a: Address, c: Coin, amount: int)
    requires Tracks(accounts, p)
    ensures Tracks(WithAdded(accounts, a, c, amount), PlainStep(p, Adding(a, c, amount)))
  {
    WritesAnswer(accounts, a, c, amount, 0);
    hide BalanceAt, NonceAt, WithAdded;
  }

  lemma NumberingTracks(accounts: map<Address, Account>, p: Plain, a: Address, nonce: nat)
    requires Tracks(accounts, p)
    ensures Tracks(WithNonce(accounts, a, nonce), PlainStep(p, Numbering(a, nonce)))
  {
    WritesAnswer(accounts, a, 0, 0, nonce);
    hide BalanceAt, NonceAt, WithNonce;
  }

  lemma CommittingTracks(accounts: map<Address, Account>, p: Plain, dirty: set<Address>)
    requires Tracks(accounts, p) && dirty <= accounts.Keys
    requires forall a, c :: BalanceOf(p.balances, a, c) >= 0
    ensures Tracks(Settled(accounts, dirty), p)
  {
    SettledAnswers(accounts, dirty);
    hide BalanceAt, NonceAt, Settled;
  }

  /** Reads, writes and commits in any order: every read answers as the plain maps do. */
  method Run(db: AccountDB, ops: seq<CacheOp>, ghost p: Plain) returns (answers: seq<int>)
    requires db.Valid() && Tracks(db.accounts, p) && Creditable(p, ops)
    modifies db
    ensures db.Valid() && Tracks(db.accounts, PlainRun(p, ops))
    ensures answers == PlainAnswers(p, ops)
  {
    hide Coherent, Tracks, PlainStep, BalanceOf, BalanceAt, PlainNonce, NonceAt;
    answers := [];
    for i := 0 to |ops|
      invariant db.Valid() && Tracks(db.accounts, PlainRun(p, ops[..i]))
      invariant answers == PlainAnswers(p, ops[..i])
    {
      ghost var was, q := db.accounts, PlainRun(p, ops[..i]);
      assert ops[..i + 1][..i] == ops[..i];
      CoherentKeys(db.tree, db.live, db.dirty, db.accounts);
      match ops[i]
      case Setting(a, c, amount) =>
        db.SetBalance(a, c, amount);
        SettingTracks(was, q, a, c, amount);
      case Adding(a, c, amount) =>
        db.AddBalance(a, c, amount);
        AddingTracks(was, q, a, c, amount);
      case Numbering(a, nonce) =>
        db.SetNonce(a, nonce);
        NumberingTracks(was, q, a, nonce);
      case Reading(a, c) =>
        var amount := db.GetBalance(a, c);
        ReadingTracks(was, q, a, c);
        answers := answers + [amount];
      case ReadingNonce(a) =>
        var nonce := db.GetNonce(a);
        NonceTracks(was, q, a);
        answers := answers + [nonce];
      case Committing =>
        CommittingTracks(was, q, db.dirty);
        db.Commit();
        NoStep(q);
    }
    assert ops[..|ops|] == ops;
  }

  lemma ReadingTracks(accounts: map<Address, Account>, p: Plain, a: Address, c: Coin)
    requires Tracks(accounts, p)
    ensures BalanceAt(accounts, a, c) == BalanceOf(p.balances, a, c) && PlainStep(p, Reading(a, c)) == p
  {
  }

  lemma NonceTracks(accounts: map<Address, Account>, p: Plain, a: Address)
    requires Tracks(accounts, p)
    ensures NonceAt(accounts, a) == PlainNonce(p, a) && PlainStep(p, ReadingNonce(a)) == p
  {
  }

  lemma NoStep(p: Plain)
    ensures PlainStep(p, Committing) == p
  {
  }
}
