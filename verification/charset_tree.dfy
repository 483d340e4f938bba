/**
 * `CharsetTree` of BpskInputStream: the binary trie the decoder builds
 * from `CHARSET`. A 0 symbol goes to the left child, a 1 symbol to the
 * right child; a node holds the character whose codeword is the path to
 * it, or -1, and its depth is the length of that path.
 */
module CharsetTrees {
  import opened JavaTypes
  import opened Varicode

  /** A trie node; `Nil` stands for a null child. */
  datatype Tree = Nil | Node(c: int, depth: int, left: Tree, right: Tree)

  /** The character value of a node that holds no character. */
  const NoChar: int := -1

  /** `new CharsetTree(-1, depth)`. */
  function NewNode(depth: int): Tree
  {
    Node(NoChar, depth, Nil, Nil)
  }

  /** The child a symbol selects; anything but 0 or 1 selects nothing. */
  function Child(t: Tree, b: int): Tree
    requires t.Node?
  {
    if b == 0 then t.left else if b == 1 then t.right else Nil
  }

  /** The node reached from t by following q, or Nil once the walk falls off the trie. */
  function Walk(t: Tree, q: seq<int>): Tree
    decreases |q|
  {
    if |q| == 0 || t == Nil then t else Walk(Child(t, q[0]), q[1..])
  }

  predicate HasNode(t: Tree, q: seq<int>)
  {
    Walk(t, q).Node?
  }

  /** The character stored at the end of q, or -1. */
  function CharAt(t: Tree, q: seq<int>): int
  {
    if HasNode(t, q) then Walk(t, q).c else NoChar
  }

  /** Every node at distance k below t has depth d + k. */
  predicate DepthsFrom(t: Tree, d: int)
  {
    t == Nil || (t.depth == d && DepthsFrom(t.left, d + 1) && DepthsFrom(t.right, d + 1))
  }

  /** Walking one more symbol moves to the corresponding child. */
  lemma {:induction false} WalkAppend(t: Tree, q: seq<int>, b: int)
    ensures Walk(t, q + [b]) == (if HasNode(t, q) then Child(Walk(t, q), b) else Nil)
    decreases |q|
  {
    if t == Nil {
      assert Walk(t, q + [b]) == Nil;
    } else if |q| == 0 {
      assert q + [b] == [b];
      assert [b][1..] == [];
    } else {
      assert (q + [b])[1..] == q[1..] + [b];
      WalkAppend(Child(t, q[0]), q[1..], b);
    }
  }

  /** Once the walk has fallen off, it stays off. */
  lemma {:induction false} WalkNil(q: seq<int>)
    ensures Walk(Nil, q) == Nil
  {
  }

  /** A walk that exists passed through nodes at every prefix. */
  lemma {:induction false} WalkPrefix(t: Tree, q: seq<int>, k: nat)
    requires k <= |q|
    ensures HasNode(t, q) ==> HasNode(t, q[..k])
    decreases |q|
  {
    if k < |q| {
      assert q[..|q| - 1] + [q[|q| - 1]] == q;
      WalkAppend(t, q[..|q| - 1], q[|q| - 1]);
      assert q[..|q| - 1][..k] == q[..k];
      WalkPrefix(t, q[..|q| - 1], k);
    } else {
      assert q[..k] == q;
    }
  }

  /** The depth of a node is its distance from the root. */
  lemma {:induction false} WalkDepth(t: Tree, d: int, q: seq<int>)
    requires DepthsFrom(t, d) && HasNode(t, q)
    ensures Walk(t, q).depth == d + |q|
    decreases |q|
  {
    if |q| > 0 {
      WalkDepth(Child(t, q[0]), d + 1, q[1..]);
    }
  }

  /*
   * addChar
   */

  /**
   * `addChar(c, path)` applied to the subtree t: walk the path, creating
   * missing nodes with depth parent + 1, then store c at its end.
   * IllegalArgumentException for a path element other than 0 or 1, or
   * when the node at the end already holds a character.
   */
  function AddChar(t: Tree, c: int, path: seq<int>): (r: Result<Tree>)
    requires t.Node?
    ensures r.Success? ==> r.value.Node? && r.value.depth == t.depth
    decreases |path|
  {
    if |path| == 0 then
      if t.c != NoChar then Failure(IllegalArgumentException) else Success(t.(c := c))
    else if !IsSymbol(path[0]) then Failure(IllegalArgumentException)
    else
      var child := Child(t, path[0]);
      var next := if child == Nil then NewNode(t.depth + 1) else child;
      match AddChar(next, c, path[1..])
      case Failure(e) => Failure(e)
      case Success(n) => Success(if path[0] == 0 then t.(left := n) else t.(right := n))
  }

  predicate AllSymbols(s: seq<int>)
  {
    forall k :: 0 <= k < |s| ==> IsSymbol(s[k])
  }

  lemma AllSymbolsConcat(a: seq<int>, b: seq<int>)
    requires AllSymbols(a) && AllSymbols(b)
    ensures AllSymbols(a + b)
  {
    forall k | 0 <= k < |a + b|
      ensures IsSymbol((a + b)[k])
    {
      if k >= |a| {
        assert (a + b)[k] == b[k - |a|];
      }
    }
  }

  /**
   * `addChar` succeeds exactly when the path is made of 0s and 1s and its
   * end holds no character yet. It then adds nodes for every prefix of the
   * path, stores c at its end, keeps every other node and character, and
   * gives every node the depth of its distance from the root.
   */
  lemma {:induction false} AddCharSpec(t: Tree, d: int, c: int, path: seq<int>)
    requires t.Node? && DepthsFrom(t, d) && c != NoChar
    ensures AddChar(t, c, path).Success? <==> AllSymbols(path) && CharAt(t, path) == NoChar
    ensures AddChar(t, c, path).Success? ==>
      var t' := AddChar(t, c, path).value;
      && t'.Node?
      && DepthsFrom(t', d)
      && (forall q :: HasNode(t', q) <==> HasNode(t, q) || q <= path)
      && (forall q :: CharAt(t', q) == if q == path then c else CharAt(t, q))
    decreases |path|
  {
    if |path| == 0 {
      var t' := t.(c := c);
      forall q
        ensures Walk(t', q) == (if |q| == 0 then t' else Walk(t, q))
      {
        if |q| > 0 {
          assert Child(t', q[0]) == Child(t, q[0]);
        }
      }
    } else if IsSymbol(path[0]) {
      var b := path[0];
      var child := Child(t, b);
      var next := if child == Nil then NewNode(t.depth + 1) else child;
      assert DepthsFrom(next, d + 1);
      AddCharSpec(next, d + 1, c, path[1..]);
      forall q | 0 < |q| && q[0] == b
        ensures Walk(t, q) == (if child == Nil then Nil else Walk(next, q[1..]))
      {
        if child == Nil {
          WalkNil(q[1..]);
        }
      }
      forall q
        ensures HasNode(next, q) <==> (child != Nil && HasNode(child, q)) || (child == Nil && |q| == 0)
      {
        if child == Nil && |q| > 0 {
          assert Child(next, q[0]) == Nil;
          WalkNil(q[1..]);
        }
      }
      if AllSymbols(path) {
        assert AllSymbols(path[1..]);
        assert Walk(t, path) == Walk(child, path[1..]);
        if child == Nil {
          WalkNil(path[1..]);
        }
        assert CharAt(t, path) == NoChar <==> CharAt(next, path[1..]) == NoChar;
      } else {
        var k :| 0 <= k < |path| && !IsSymbol(path[k]);
        assert !IsSymbol(path[1..][k - 1]);
      }
      if AddChar(t, c, path).Success? {
        var n := AddChar(next, c, path[1..]).value;
        var t' := AddChar(t, c, path).value;
        assert Child(t', b) == n;
        forall q
          ensures HasNode(t', q) <==> HasNode(t, q) || q <= path
          ensures CharAt(t', q) == if q == path then c else CharAt(t, q)
        {
          if |q| == 0 {
          } else if q[0] == b {
            assert Walk(t', q) == Walk(n, q[1..]);
            assert q <= path <==> q[1..] <= path[1..];
            assert q == path <==> q[1..] == path[1..];
            if child == Nil {
              WalkNil(q[1..]);
              assert CharAt(next, q[1..]) == NoChar == CharAt(t, q);
            } else {
              assert CharAt(next, q[1..]) == CharAt(t, q);
            }
          } else {
            assert Child(t', q[0]) == Child(t, q[0]);
            assert !(q <= path);
          }
        }
      }
    }
  }

  /*
   * The static initializer: every non-null `CHARSET` slot is added to the
   * trie under its index, and the longest codeword is remembered.
   */

  /** The trie after slots 0 .. n-1 of the table have been added to a fresh root. */
  function BuildTree(table: seq<Option<seq<int>>>, n: nat): (r: Result<Tree>)
    requires n <= |table|
    ensures r.Success? ==> r.value.Node? && r.value.depth == 0
  {
    if n == 0 then Success(NewNode(0))
    else match BuildTree(table, n - 1)
      case Failure(e) => Failure(e)
      case Success(t) => if table[n - 1].Some? then AddChar(t, n - 1, table[n - 1].value) else Success(t)
  }

  /** The length of the longest codeword among slots 0 .. n-1, or 0. */
  function Longest(table: seq<Option<seq<int>>>, n: nat): nat
    requires n <= |table|
  {
    if n == 0 then 0
    else
      var m := Longest(table, n - 1);
      if table[n - 1].Some? && m < |table[n - 1].value| then |table[n - 1].value| else m
  }

  /** Some codeword among slots 0 .. n-1 starts with q. */
  predicate OnSomeCode(table: seq<Option<seq<int>>>, n: nat, q: seq<int>)
    requires n <= |table|
  {
    n > 0 && ((table[n - 1].Some? && q <= table[n - 1].value) || OnSomeCode(table, n - 1, q))
  }

  /** The last slot among 0 .. n-1 whose codeword is q, or -1. */
  function CharOf(table: seq<Option<seq<int>>>, n: nat, q: seq<int>): int
    requires n <= |table|
  {
    if n == 0 then NoChar
    else if table[n - 1] == Some(q) then n - 1
    else CharOf(table, n - 1, q)
  }

  lemma {:induction false} OnSomeCodeWitness(table: seq<Option<seq<int>>>, n: nat, q: seq<int>) returns (x: nat)
    requires n <= |table| && OnSomeCode(table, n, q)
    ensures x < n && table[x].Some? && q <= table[x].value
  {
    if table[n - 1].Some? && q <= table[n - 1].value {
      x := n - 1;
    } else {
      x := OnSomeCodeWitness(table, n - 1, q);
    }
  }

  lemma {:induction false} OnSomeCodeIntro(table: seq<Option<seq<int>>>, n: nat, q: seq<int>, x: nat)
    requires n <= |table| && x < n && table[x].Some? && q <= table[x].value
    ensures OnSomeCode(table, n, q)
  {
    if x < n - 1 {
      OnSomeCodeIntro(table, n - 1, q, x);
    }
  }

  lemma {:induction false} CharOfSlot(table: seq<Option<seq<int>>>, n: nat, q: seq<int>)
    requires n <= |table|
    ensures CharOf(table, n, q) != NoChar ==> 0 <= CharOf(table, n, q) < n && table[CharOf(table, n, q)] == Some(q)
    ensures (exists x :: 0 <= x < n && table[x] == Some(q)) ==> CharOf(table, n, q) != NoChar
  {
    if n > 0 {
      CharOfSlot(table, n - 1, q);
    }
  }

  /**
   * For a valid table the initializer never throws, and the trie it builds
   * from slots 0 .. n-1 has a node exactly at the prefixes of their
   * codewords, holds at each codeword the slot it came from and nothing
   * elsewhere, and gives each node the depth of its distance from the root.
   */
  lemma {:induction false} BuildTreeContents(table: seq<Option<seq<int>>>, n: nat)
    requires ValidTable(table) && n <= |table|
    ensures BuildTree(table, n).Success?
    ensures var t := BuildTree(table, n).value;
      && DepthsFrom(t, 0)
      && t.c == NoChar
      && (forall q :: HasNode(t, q) <==> |q| == 0 || OnSomeCode(table, n, q))
      && (forall q :: CharAt(t, q) == CharOf(table, n, q))
  {
    if n == 0 {
      forall q | |q| > 0
        ensures !HasNode(NewNode(0), q)
      {
        WalkNil(q[1..]);
      }
    } else {
      BuildTreeContents(table, n - 1);
      var t := BuildTree(table, n - 1).value;
      if table[n - 1].Some? {
        var code := table[n - 1].value;
        CharOfSlot(table, n - 1, code);
        assert CharAt(t, code) == NoChar;
        AddCharSpec(t, 0, n - 1, code);
        var t' := BuildTree(table, n).value;
        assert t'.c == NoChar by {
          assert CharAt(t', []) == CharAt(t, []);
        }
      }
    }
  }

  /** The trie a valid table builds. */
  function CharsetTreeOf(table: seq<Option<seq<int>>>): (t: Tree)
    requires ValidTable(table)
    ensures t.Node? && t.depth == 0 && DepthsFrom(t, 0) && t.c == NoChar
  {
    BuildTreeContents(table, |table|);
    BuildTree(table, |table|).value
  }

  /** The nodes and characters of the trie a valid table builds. */
  lemma CharsetTreeContents(table: seq<Option<seq<int>>>)
    requires ValidTable(table)
    ensures forall q :: HasNode(CharsetTreeOf(table), q) <==> |q| == 0 || OnSomeCode(table, |table|, q)
    ensures forall q :: CharAt(CharsetTreeOf(table), q) == CharOf(table, |table|, q)
  {
    BuildTreeContents(table, |table|);
  }

  /**
   * The static initializer of BpskInputStream: add every non-null slot to
   * a fresh root, keeping the longest codeword length in LONGEST_CHARACTER.
   */
  method BuildCharsetTree(table: seq<Option<seq<int>>>) returns (r: Result<Tree>, longest: nat)
    ensures r == BuildTree(table, |table|)
    ensures longest == Longest(table, |table|) || r.Failure?
  {
    var t := NewNode(0);
    longest := 0;
    var i := 0;
    while i < |table|
      invariant 0 <= i <= |table|
      invariant BuildTree(table, i) == Success(t)
      invariant longest == Longest(table, i)
    {
      if table[i].Some? {
        var added := AddChar(t, i, table[i].value);
        if added.Failure? {
          assert BuildTree(table, i + 1) == added;
          FailurePersists(table, i + 1);
          return added, longest;
        }
        t := added.value;
        if longest < |table[i].value| {
          longest := |table[i].value|;
        }
      }
      i := i + 1;
    }
    r := Success(t);
  }

  lemma {:induction false} FailurePersists(table: seq<Option<seq<int>>>, n: nat)
    requires 0 < n <= |table| && BuildTree(table, n).Failure?
    ensures BuildTree(table, |table|) == BuildTree(table, n)
    decreases |table| - n
  {
    if n < |table| {
      FailurePersists(table, n + 1);
    }
  }

  /** Every codeword of a valid table is at most ten symbols, and `NUL`'s has exactly ten. */
  lemma {:induction false} LongestOfValidTable(table: seq<Option<seq<int>>>, n: nat)
    requires ValidTable(table) && n <= |table|
    ensures Longest(table, n) <= MaxCodeLength
    ensures forall x :: 0 <= x < n && table[x].Some? ==> |table[x].value| <= Longest(table, n)
  {
    if n > 0 {
      LongestOfValidTable(table, n - 1);
    }
  }

  /** `LONGEST_CHARACTER` of `CHARSET` is ten symbols, the length of `NUL`'s codeword. */
  lemma CharsetLongest()
    ensures Longest(Charset(), CharsetSize) == MaxCodeLength
  {
    CharsetValid();
    LongestOfValidTable(Charset(), CharsetSize);
    assert CodeWord(0) == 0x2AB;
    assert |Charset()[0].value| == BitLength(0x2AB) == MaxCodeLength;
  }

  /*
   * findChar
   */

  /**
   * The loop of `findChar` from position i of the path on, standing at ct
   * with the deepest character node met so far in lastValid.
   */
  function FindFrom(ct: Tree, lastValid: Tree, path: seq<int>, i: nat): (r: Result<Tree>)
    requires ct.Node? && lastValid.Node? && i <= |path|
    ensures r.Success? ==> r.value.Node?
    decreases |path| - i
  {
    if i == |path| then Success(lastValid)
    else if !IsSymbol(path[i]) then Failure(IllegalArgumentException)
    else
      var next := Child(ct, path[i]);
      if next == Nil then Success(lastValid)
      else FindFrom(next, if next.c != NoChar then next else lastValid, path, i + 1)
  }

  /** `t.findChar(path, 0, |path|)`. */
  function FindMatch(t: Tree, path: seq<int>): (r: Result<Tree>)
    requires t.Node?
    ensures r.Success? ==> r.value.Node?
  {
    FindFrom(t, t, path, 0)
  }

  /**
   * `findChar(path, off, len)`: walk from this node along path[off..off+len],
   * stopping where the trie ends, and return the last node on the way that
   * holds a character, or this node if there is none.
   */
  method FindChar(t: Tree, path: array<int>, off: nat, len: nat) returns (r: Result<Tree>)
    requires t.Node? && off + len <= path.Length
    ensures r == FindMatch(t, path[off..off + len])
  {
    ghost var p := path[off..off + len];
    var ct := t;
    var lastValid := ct;
    var i := 0;
    while i < len
      invariant 0 <= i <= len && ct.Node? && lastValid.Node?
      invariant FindFrom(ct, lastValid, p, i) == FindMatch(t, p)
    {
      var next: Tree;
      if path[i + off] == 0 {
        next := ct.left;
      } else if path[i + off] == 1 {
        next := ct.right;
      } else {
        return Failure(IllegalArgumentException);
      }
      if next == Nil {
        break;
      }
      ct := next;
      if ct.c != NoChar {
        lastValid := ct;
      }
      i := i + 1;
    }
    r := Success(lastValid);
  }

  /** A trie as the initializer builds it: root at depth 0 holding no character. */
  predicate RootedTrie(t: Tree)
  {
    t.Node? && DepthsFrom(t, 0) && t.c == NoChar
  }

  lemma {:induction false} FindFromDeepest(t: Tree, path: seq<int>, i: nat, lv: Tree)
    requires RootedTrie(t) && AllSymbols(path) && i <= |path| && HasNode(t, path[..i])
    requires lv.Node? && 0 <= lv.depth <= i && lv == Walk(t, path[..lv.depth])
    requires lv.depth > 0 ==> lv.c != NoChar
    requires forall k :: lv.depth < k <= i ==> CharAt(t, path[..k]) == NoChar
    ensures FindFrom(Walk(t, path[..i]), lv, path, i).Success?
    ensures var n := FindFrom(Walk(t, path[..i]), lv, path, i).value;
      && n.Node? && 0 <= n.depth <= |path| && n == Walk(t, path[..n.depth])
      && (n.depth > 0 ==> n.c != NoChar)
      && (forall k :: n.depth < k <= |path| ==> CharAt(t, path[..k]) == NoChar)
    decreases |path| - i
  {
    if i < |path| {
      assert path[..i + 1] == path[..i] + [path[i]];
      WalkAppend(t, path[..i], path[i]);
      var next := Walk(t, path[..i + 1]);
      if next == Nil {
        forall k | i < k <= |path|
          ensures CharAt(t, path[..k]) == NoChar
        {
          WalkPrefix(t, path[..k], i + 1);
          assert path[..k][..i + 1] == path[..i + 1];
        }
      } else {
        WalkDepth(t, 0, path[..i + 1]);
        FindFromDeepest(t, path, i + 1, if next.c != NoChar then next else lv);
      }
    }
  }

  /**
   * On a path of 0s and 1s, `findChar` returns the deepest node holding a
   * character that the path reaches, or the root when it reaches none: the
   * node is the one at the end of the path's first depth symbols, and no
   * longer prefix of the path leads to a character.
   */
  lemma FindMatchDeepest(t: Tree, path: seq<int>)
    requires RootedTrie(t) && AllSymbols(path)
    ensures FindMatch(t, path).Success?
    ensures var n := FindMatch(t, path).value;
      && n.Node? && 0 <= n.depth <= |path| && n == Walk(t, path[..n.depth])
      && (n.depth == 0 <==> n == t)
      && (n.depth > 0 ==> n.c != NoChar)
      && (forall k :: n.depth < k <= |path| ==> CharAt(t, path[..k]) == NoChar)
  {
    assert path[..0] == [];
    FindFromDeepest(t, path, 0, t);
  }

  lemma {:induction false} FindFromRejects(t: Tree, path: seq<int>, i: nat, j: nat, lv: Tree)
    requires t.Node? && lv.Node? && j <= i < |path| && AllSymbols(path[..i]) && !IsSymbol(path[i])
    requires HasNode(t, path[..j])
    ensures FindFrom(Walk(t, path[..j]), lv, path, j).Failure? <==> HasNode(t, path[..i])
    decreases i - j
  {
    if j < i {
      assert path[j] == path[..i][j];
      assert path[..j + 1] == path[..j] + [path[j]];
      WalkAppend(t, path[..j], path[j]);
      var next := Walk(t, path[..j + 1]);
      if next == Nil {
        WalkPrefix(t, path[..i], j + 1);
        assert path[..i][..j + 1] == path[..j + 1];
      } else {
        FindFromRejects(t, path, i, j + 1, if next.c != NoChar then next else lv);
      }
    }
  }

  /**
   * `findChar` throws IllegalArgumentException for the first element that
   * is neither 0 nor 1 exactly when the walk is still in the trie there.
   */
  lemma FindMatchRejects(t: Tree, path: seq<int>, i: nat)
    requires t.Node? && i < |path| && AllSymbols(path[..i]) && !IsSymbol(path[i])
    ensures FindMatch(t, path).Failure? <==> HasNode(t, path[..i])
  {
    assert path[..0] == [];
    FindFromRejects(t, path, i, 0, t);
  }

  /*
   * The trie of a valid table.
   */

  /** In the trie of a valid table, the nodes along a codeword exist and its end holds the character. */
  lemma CodewordInTree(table: seq<Option<seq<int>>>, b: nat, q: seq<int>)
    requires ValidTable(table) && b < DefinedChars && q <= table[b].value
    ensures HasNode(CharsetTreeOf(table), q)
    ensures q == table[b].value ==> CharAt(CharsetTreeOf(table), q) == b
  {
    CharsetTreeContents(table);
    OnSomeCodeIntro(table, |table|, q, b);
    CharOfSlot(table, |table|, table[b].value);
  }

  /**
   * In the trie of a valid table, every node lies on a codeword: it is at
   * most ten symbols deep, its path has no two adjacent 0s, and a node
   * holding a character ends with a 1 and is that character's codeword.
   */
  lemma TreeNodeOnCodeword(table: seq<Option<seq<int>>>, q: seq<int>)
    requires ValidTable(table)
    ensures HasNode(CharsetTreeOf(table), q) ==> |q| <= MaxCodeLength
    ensures HasNode(CharsetTreeOf(table), q) ==> forall k :: 0 <= k < |q| - 1 ==> q[k] == 1 || q[k + 1] == 1
    ensures CharAt(CharsetTreeOf(table), q) != NoChar ==>
      && 0 < |q| && q[|q| - 1] == 1
      && 0 <= CharAt(CharsetTreeOf(table), q) < DefinedChars
      && table[CharAt(CharsetTreeOf(table), q)] == Some(q)
  {
    CharsetTreeContents(table);
    if HasNode(CharsetTreeOf(table), q) && |q| > 0 {
      var x := OnSomeCodeWitness(table, |table|, q);
      assert ValidCodeword(table[x].value);
      forall k | 0 <= k < |q| - 1
        ensures q[k] == 1 || q[k + 1] == 1
      {
        assert q[k] == table[x].value[k] && q[k + 1] == table[x].value[k + 1];
      }
    }
    CharOfSlot(table, |table|, q);
    if CharAt(CharsetTreeOf(table), q) != NoChar {
      assert ValidCodeword(table[CharAt(CharsetTreeOf(table), q)].value);
    }
  }

  lemma {:induction false} FindAlongCodeword(table: seq<Option<seq<int>>>, b: nat, s: seq<int>, i: nat, lv: Tree)
    requires ValidTable(table) && b < DefinedChars
    requires table[b].value <= s
    requires forall k :: |table[b].value| <= k < |s| && k < |table[b].value| + 2 ==> s[k] == 0
    requires lv.Node? && i <= |table[b].value| && (i == |table[b].value| ==> lv == Walk(CharsetTreeOf(table), table[b].value))
    ensures HasNode(CharsetTreeOf(table), s[..i])
    ensures FindFrom(Walk(CharsetTreeOf(table), s[..i]), lv, s, i) == Success(Walk(CharsetTreeOf(table), table[b].value))
    decreases |s| - i
  {
    var t := CharsetTreeOf(table);
    var code := table[b].value;
    assert s[..i] <= code;
    CodewordInTree(table, b, s[..i]);
    assert ValidCodeword(code);
    if i < |code| {
      assert s[..i + 1] == s[..i] + [s[i]];
      WalkAppend(t, s[..i], s[i]);
      assert IsSymbol(code[i]);
      assert s[..i + 1] <= code;
      CodewordInTree(table, b, s[..i + 1]);
      if i + 1 == |code| {
        assert s[..i + 1] == code;
      }
      var next := Walk(t, s[..i + 1]);
      FindAlongCodeword(table, b, s, i + 1, if next.c != NoChar then next else lv);
    } else if i < |s| {
      assert s[..i] == code;
      var q1 := code + [0];
      assert s[..i + 1] == q1;
      WalkAppend(t, code, 0);
      TreeNodeOnCodeword(table, q1);
      if HasNode(t, q1) && i + 1 < |s| {
        var q2 := q1 + [0];
        assert s[..i + 2] == q2;
        WalkAppend(t, q1, 0);
        TreeNodeOnCodeword(table, q2);
        assert q2[|code|] == 0 && q2[|code| + 1] == 0;
      }
    }
  }

  /**
   * In the trie of a valid table, `findChar` on a codeword, alone or
   * followed by the two 0s that end a character, returns the node of that
   * character, whose depth is the codeword's length.
   */
  lemma FindCodeword(table: seq<Option<seq<int>>>, b: nat, s: seq<int>)
    requires ValidTable(table) && b < DefinedChars
    requires table[b].value <= s
    requires forall k :: |table[b].value| <= k < |s| && k < |table[b].value| + 2 ==> s[k] == 0
    ensures FindMatch(CharsetTreeOf(table), s).Success?
    ensures FindMatch(CharsetTreeOf(table), s).value.c == b
    ensures FindMatch(CharsetTreeOf(table), s).value.depth == |table[b].value|
  {
    var t := CharsetTreeOf(table);
    assert s[..0] == [];
    FindAlongCodeword(table, b, s, 0, t);
    CodewordInTree(table, b, table[b].value);
    WalkDepth(t, 0, table[b].value);
  }

  /**
   * In the trie of a valid table, `findChar` only looks at the first eleven
   * symbols: a path of at least that many symbols matches as any longer
   * path starting with it does.
   */
  lemma FindMatchWindow(table: seq<Option<seq<int>>>, w: seq<int>, s: seq<int>)
    requires ValidTable(table) && w <= s && |w| > MaxCodeLength
    ensures FindMatch(CharsetTreeOf(table), w) == FindMatch(CharsetTreeOf(table), s)
  {
    var t := CharsetTreeOf(table);
    assert s[..0] == [];
    FindWindowFrom(table, w, s, 0, t);
  }

  lemma {:induction false} FindWindowFrom(table: seq<Option<seq<int>>>, w: seq<int>, s: seq<int>, i: nat, lv: Tree)
    requires ValidTable(table) && w <= s && |w| > MaxCodeLength
    requires lv.Node? && i <= MaxCodeLength && HasNode(CharsetTreeOf(table), s[..i])
    ensures s[..i] == w[..i]
    ensures FindFrom(Walk(CharsetTreeOf(table), s[..i]), lv, w, i) == FindFrom(Walk(CharsetTreeOf(table), s[..i]), lv, s, i)
    decreases MaxCodeLength - i
  {
    var t := CharsetTreeOf(table);
    assert s[..i] == w[..i];
    assert w[i] == s[i];
    if IsSymbol(s[i]) {
      assert s[..i + 1] == s[..i] + [s[i]];
      WalkAppend(t, s[..i], s[i]);
      var next := Walk(t, s[..i + 1]);
      if next != Nil {
        TreeNodeOnCodeword(table, s[..i + 1]);
        FindWindowFrom(table, w, s, i + 1, if next.c != NoChar then next else lv);
      }
    }
  }

  /*
   * validateTree
   */

  /** Slot i is null, or `findChar` on its codeword finds character i at the codeword's length. */
  predicate SlotFound(table: seq<Option<seq<int>>>, t: Tree, i: nat)
    requires t.Node? && i < |table|
  {
    table[i].None? ||
      (FindMatch(t, table[i].value).Success?
       && FindMatch(t, table[i].value).value.c == i
       && FindMatch(t, table[i].value).value.depth == |table[i].value|)
  }

  /**
   * `validateTree`: look every non-null slot up in the trie and throw a
   * RuntimeException unless it comes back as that character at the
   * codeword's length. It passes exactly when every slot is found, and it
   * always passes on the trie of a valid table.
   */
  method ValidateTree(table: seq<Option<seq<int>>>, t: Tree) returns (r: Result<()>)
    requires t.Node?
    ensures r.Success? <==> forall i :: 0 <= i < |table| ==> SlotFound(table, t, i)
    ensures ValidTable(table) && t == CharsetTreeOf(table) ==> r.Success?
  {
    var i := 0;
    while i < |table|
      invariant 0 <= i <= |table|
      invariant forall j :: 0 <= j < i ==> SlotFound(table, t, j)
    {
      if table[i].Some? {
        var code := table[i].value;
        var path := new int[|code|](k requires 0 <= k < |code| => code[k]);
        var ct := FindChar(t, path, 0, path.Length);
        assert path[0..path.Length] == code;
        if ValidTable(table) && t == CharsetTreeOf(table) {
          FindCodeword(table, i, code);
        }
        if ct.Failure? {
          assert !SlotFound(table, t, i);
          return Failure(ct.error);
        }
        if i != ct.value.c {
          assert !SlotFound(table, t, i);
          return Failure(RuntimeException);
        }
        if |code| != ct.value.depth {
          assert !SlotFound(table, t, i);
          return Failure(RuntimeException);
        }
      }
      i := i + 1;
    }
    r := Success(());
  }
}
