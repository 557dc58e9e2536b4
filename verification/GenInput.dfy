/** The generator of request scripts, with its random draws as parameters: every line stays within the maximum. */
module GenInput {
  import opened Bank
  import opened MasterStep
  import opened BankerSession

  /** One entry of a request line: `coin` chooses between releasing and asking where both are possible,
      `draw` the amount. */
  function Entry(alloc: int, max: int, coin: nat, draw: nat): int
    requires 0 <= alloc <= max
  {
    var release := if alloc == 0 then false else if alloc == max then true else coin % 2 == 0;
    if release then -(draw % (1 + alloc)) else draw % (1 + max - alloc)
  }

  /** The thread stays within its bounds; where it could both ask and release, an even coin releases. */
  lemma EntryStaysWithin(alloc: int, max: int, coin: nat, draw: nat)
    requires 0 <= alloc <= max
    ensures 0 <= alloc + Entry(alloc, max, coin, draw) <= max
    ensures 0 < alloc < max ==> if coin % 2 == 0 then Entry(alloc, max, coin, draw) <= 0 else Entry(alloc, max, coin, draw) >= 0
  {
    assert 0 <= draw % (1 + alloc) < 1 + alloc;
    assert 0 <= draw % (1 + max - alloc) < 1 + max - alloc;
  }

  lemma SmallRemainder(x: nat, n: nat)
    requires x < n
    ensures x % n == x
  {
  }

  /** The entries that can come up are exactly those that keep the thread between nothing and its maximum. */
  lemma EntryRange(alloc: int, max: int, v: int)
    requires 0 <= alloc <= max
    ensures (exists coin: nat, draw: nat :: Entry(alloc, max, coin, draw) == v) <==> 0 <= alloc + v <= max
  {
    if coin: nat, draw: nat :| Entry(alloc, max, coin, draw) == v {
      EntryStaysWithin(alloc, max, coin, draw);
    }
    if 0 <= alloc + v <= max {
      if v < 0 || (v == 0 && 0 < alloc == max) {
        SmallRemainder(-v, 1 + alloc);
        assert Entry(alloc, max, 0, -v) == v;
      } else {
        SmallRemainder(v, 1 + max - alloc);
        assert Entry(alloc, max, 1, v) == v;
      }
    }
  }

  lemma {:induction false} NetAppend(script: Script, row: seq<int>, k: nat, j: nat)
    requires k <= |script| && j < |row| && forall i :: 0 <= i < |script| ==> j < |script[i]|
    ensures Net(script + [row], k, j) == Net(script, k, j)
  {
    if k > 0 { NetAppend(script, row, k - 1, j); }
  }

  lemma WithinAppend(max: seq<int>, script: Script, row: seq<int>)
    requires ScriptWithin(max, script) && |row| == |max|
    requires forall j :: 0 <= j < |max| ==> 0 <= Net(script, |script|, j) + row[j] <= max[j]
    ensures ScriptWithin(max, script + [row])
    ensures forall j :: 0 <= j < |max| ==> Net(script + [row], |script| + 1, j) == Net(script, |script|, j) + row[j]
  {
    var longer := script + [row];
    forall k, j | 0 <= k <= |longer| && 0 <= j < |max|
      ensures 0 <= Net(longer, k, j) <= max[j]
      ensures k == |longer| ==> Net(longer, k, j) == Net(script, |script|, j) + row[j]
    {
      if k <= |script| {
        NetAppend(script, row, k, j);
      } else {
        NetAppend(script, row, k - 1, j);
      }
    }
  }

  /** Every entry was drawn on top of what the lines before it come to. */
  ghost predicate DrawnFrom(script: Script, max: seq<int>, coin: (nat, nat) -> nat, draw: (nat, nat) -> nat)
    requires ScriptWithin(max, script)
  {
    forall k, j :: 0 <= k < |script| && 0 <= j < |max| ==>
      script[k][j] == Entry(Net(script, k, j), max[j], coin(k, j), draw(k, j))
  }

  lemma DrawnAppend(script: Script, max: seq<int>, coin: (nat, nat) -> nat, draw: (nat, nat) -> nat, row: seq<int>)
    requires |row| == |max| && ScriptWithin(max, script) && ScriptWithin(max, script + [row]) && DrawnFrom(script, max, coin, draw)
    requires forall j :: 0 <= j < |max| ==>
      row[j] == Entry(Net(script, |script|, j), max[j], coin(|script|, j), draw(|script|, j))
    ensures DrawnFrom(script + [row], max, coin, draw)
  {
    var longer := script + [row];
    assert longer[|script|] == row;
    forall k, j | 0 <= k < |longer| && 0 <= j < |max|
      ensures longer[k][j] == Entry(Net(longer, k, j), max[j], coin(k, j), draw(k, j))
    {
      NetAppend(script, row, k, j);
    }
  }

  /** One request line, drawn on top of `alloc`, which it updates. */
  method GenerateLine(max: seq<int>, alloc: array<int>, k: nat, coin: (nat, nat) -> nat, draw: (nat, nat) -> nat)
    returns (row: seq<int>)
    requires alloc.Length == |max| && forall j :: 0 <= j < |max| ==> 0 <= alloc[j] <= max[j]
    modifies alloc
    ensures |row| == |max|
    ensures forall j :: 0 <= j < |max| ==> row[j] == Entry(old(alloc[j]), max[j], coin(k, j), draw(k, j))
    ensures forall j :: 0 <= j < |max| ==> alloc[j] == old(alloc[j]) + row[j] && 0 <= alloc[j] <= max[j]
  {
    hide Entry;
    row := [];
    for j := 0 to |max|
      invariant |row| == j
      invariant forall i :: 0 <= i < j ==> row[i] == Entry(old(alloc[i]), max[i], coin(k, i), draw(k, i))
      invariant forall i :: 0 <= i < j ==> alloc[i] == old(alloc[i]) + row[i] && 0 <= alloc[i] <= max[i]
      invariant forall i :: j <= i < |max| ==> alloc[i] == old(alloc[i])
    {
      EntryStaysWithin(alloc[j], max[j], coin(k, j), draw(k, j));
      var req := Entry(alloc[j], max[j], coin(k, j), draw(k, j));
      row := row + [req];
      alloc[j] := alloc[j] + req;
    }
  }

  /** The script of one thread: `nr` request lines, with ALLOC tracking what they come to. */
  method GenerateScript(max: seq<int>, nr: nat, coin: (nat, nat) -> nat, draw: (nat, nat) -> nat) returns (script: Script)
    requires NonNegative(max)
    ensures |script| == nr && ScriptWithin(max, script) && DrawnFrom(script, max, coin, draw)
  {
    hide Entry;
    var m := |max|;
    var alloc := new int[m](j => 0);
    script := [];
    for k := 0 to nr
      invariant |script| == k && ScriptWithin(max, script) && DrawnFrom(script, max, coin, draw)
      invariant forall j :: 0 <= j < m ==> alloc[j] == Net(script, k, j)
    {
      var row := GenerateLine(max, alloc, k, coin, draw);
      WithinAppend(max, script, row);
      DrawnAppend(script, max, coin, draw, row);
      script := script + [row];
    }
  }
}
