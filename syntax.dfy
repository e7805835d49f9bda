/**
 * Syntax trees. The parser's output is modelled as an immutable value tree
 * (`Syntax`); the mutable node class with parent links that the tree is made of
 * is modelled separately as `SyntaxNode`.
 */
module SyntaxTree {
  import opened Wrappers
  import opened Lexer

  /** A syntax node: its type tag, its optional text and its ordered children. */
  datatype Syntax = Node(typ: string, value: Option<string>, children: seq<Syntax>)
  {
    /** The node's text, or the empty string when it has none. */
    function ValueOrEmpty(): (r: string)
      ensures value.Some? ==> r == value.value
      ensures value.None? ==> r == ""
    {
      if value.Some? then value.value else ""
    }
  }

  /** A node with a text and no children. */
  function Leaf(typ: string, value: string): Syntax {
    Node(typ, Some(value), [])
  }

  /** `s` with its first occurrence of `x` removed; `s` itself when `x` does not occur. */
  function RemoveFirst<T(==)>(s: seq<T>, x: T): (r: seq<T>)
    ensures x !in s ==> r == s
    ensures x in s ==> |r| == |s| - 1
  {
    if |s| == 0 then s
    else if s[0] == x then s[1..]
    else [s[0]] + RemoveFirst(s[1..], x)
  }

  /** Removing the first occurrence takes exactly one copy of `x` out of the multiset of elements. */
  lemma {:induction false} RemoveFirstMultiset<T>(s: seq<T>, x: T)
    requires x in s
    ensures multiset(RemoveFirst(s, x)) == multiset(s) - multiset{x}
  {
    if s[0] != x {
      RemoveFirstMultiset(s[1..], x);
      assert s == [s[0]] + s[1..];
    } else {
      assert s == [x] + s[1..];
    }
  }

  /** The elements before the first occurrence of `x` stay in place, those after it move up by one. */
  lemma {:induction false} RemoveFirstSplits<T>(s: seq<T>, x: T, i: nat)
    requires i < |s| && s[i] == x && x !in s[..i]
    ensures RemoveFirst(s, x) == s[..i] + s[i + 1..]
  {
    if i > 0 {
      assert s[0] in s[..i];
      assert s[1..][i - 1] == x;
      assert s[1..][..i - 1] == s[..i][1..];
      RemoveFirstSplits(s[1..], x, i - 1);
      assert s[..i] == [s[0]] + s[1..][..i - 1];
      assert s[1..][i..] == s[i + 1..];
    }
  }

  /** Appending a child that was not there and removing it again gives the original list. */
  lemma {:induction false} RemoveFirstUndoesAppend<T>(s: seq<T>, x: T)
    requires x !in s
    ensures RemoveFirst(s + [x], x) == s
  {
    assert (s + [x])[|s|] == x;
    assert (s + [x])[..|s|] == s;
    RemoveFirstSplits(s + [x], x, |s|);
    assert (s + [x])[|s| + 1..] == [];
  }

  /** A syntax node object: the parser's mutable tree node with a link to its parent. */
  class SyntaxNode {
    var children: seq<SyntaxNode>
    var parent: SyntaxNode?
    var tokenData: Option<seq<Token>>
    var typ: string
    var value: Option<string>

    /** The full constructor: every field as given. */
    constructor (parent: SyntaxNode?, children: seq<SyntaxNode>, tokenData: Option<seq<Token>>, typ: string, value: Option<string>)
      ensures this.parent == parent && this.children == children && this.tokenData == tokenData
      ensures this.typ == typ && this.value == value
    {
      this.parent := parent;
      this.children := children;
      this.tokenData := tokenData;
      this.typ := typ;
      this.value := value;
    }

    /** A parentless, childless node carrying the tokens it was read from. */
    constructor FromTokens(tokenData: seq<Token>, typ: string, value: Option<string>)
      ensures parent == null && children == [] && this.tokenData == Some(tokenData)
      ensures this.typ == typ && this.value == value
    {
      parent := null;
      children := [];
      this.tokenData := Some(tokenData);
      this.typ := typ;
      this.value := value;
    }

    /** A parentless, childless node carrying the one token it was read from, if any. */
    constructor FromToken(token: Option<Token>, typ: string, value: Option<string>)
      ensures parent == null && children == []
      ensures tokenData == Some(if token.Some? then [token.value] else [])
      ensures this.typ == typ && this.value == value
    {
      parent := null;
      children := [];
      tokenData := Some(if token.Some? then [token.value] else []);
      this.typ := typ;
      this.value := value;
    }

    /** A parentless, childless node with a type and no text. */
    constructor OfType(typ: string)
      ensures parent == null && children == [] && tokenData == None
      ensures this.typ == typ && value == None
    {
      parent := null;
      children := [];
      tokenData := None;
      this.typ := typ;
      value := None;
    }

    /** A parentless, childless node with a type and a text. */
    constructor OfTypeAndValue(typ: string, value: string)
      ensures parent == null && children == [] && tokenData == None
      ensures this.typ == typ && this.value == Some(value)
    {
      parent := null;
      children := [];
      tokenData := None;
      this.typ := typ;
      this.value := Some(value);
    }

    /** Appends `child` and makes this node its parent. */
    method AddChild(child: SyntaxNode)
      modifies this, child
      ensures children == old(children) + [child]
      ensures child.parent == this
      ensures typ == old(typ) && value == old(value) && tokenData == old(tokenData)
      ensures child != this ==> parent == old(parent)
      ensures child != this ==> child.children == old(child.children) && child.typ == old(child.typ)
                                && child.value == old(child.value) && child.tokenData == old(child.tokenData)
    {
      children := children + [child];
      child.parent := this;
    }

    /** Removes the first occurrence of `child`, if any, and always clears its parent. */
    method RemoveChild(child: SyntaxNode)
      modifies this, child
      ensures children == RemoveFirst(old(children), child)
      ensures child.parent == null
      ensures typ == old(typ) && value == old(value) && tokenData == old(tokenData)
      ensures child != this ==> parent == old(parent)
      ensures child != this ==> child.children == old(child.children) && child.typ == old(child.typ)
                                && child.value == old(child.value) && child.tokenData == old(child.tokenData)
    {
      children := RemoveFirst(children, child);
      child.parent := null;
    }

    /** Appends all of `nodes` in order and makes this node the parent of each. */
    method AddChildren(nodes: seq<SyntaxNode>)
      modifies this, nodes
      ensures children == old(children) + nodes
      ensures forall n :: n in nodes ==> n.parent == this
      ensures typ == old(typ) && value == old(value) && tokenData == old(tokenData)
      ensures this !in nodes ==> parent == old(parent)
      ensures forall n :: n in nodes && n != this ==>
        n.children == old(n.children) && n.typ == old(n.typ) && n.value == old(n.value) && n.tokenData == old(n.tokenData)
    {
      children := children + nodes;
      for k := 0 to |nodes|
        invariant children == old(children) + nodes
        invariant forall n :: n in nodes[..k] ==> n.parent == this
        invariant typ == old(typ) && value == old(value) && tokenData == old(tokenData)
        invariant this !in nodes ==> parent == old(parent)
        invariant forall n :: n in nodes && n != this ==>
          n.children == old(n.children) && n.typ == old(n.typ) && n.value == old(n.value) && n.tokenData == old(n.tokenData)
      {
        nodes[k].parent := this;
      }
      assert nodes[..|nodes|] == nodes;
    }

    function GetChildren(): (r: seq<SyntaxNode>)
      reads this
      ensures r == children
    {
      children
    }

    function GetParent(): (r: SyntaxNode?)
      reads this
      ensures r == parent
    {
      parent
    }
  }
}
