/** The boundary to libxml2: the nodes its reader reports and, one step further,
    the tokens that the builders see. */
module Xml {
  import opened Text

  /** Local element names, as far as any transition table tells them apart. */
  datatype Tag =
    | MethodCall | MethodName | Params | Param | MethodResponse | FaultTag
    | ValueTag | StringTag | IntTag | I4 | I8 | BooleanTag | DoubleTag | Base64Tag | DateTag
    | StructTag | MemberTag | NameTag | ArrayTag | DataTag | NilTag
    | Other(name: string)

  /** What one call of `xmlTextReaderRead` reports. `Skipped` stands for white
      space, comments and whatever else is neither element nor text; `Broken`
      for a document that is not well-formed at this point. */
  datatype Node =
    | Element(tag: Tag, isEmpty: bool)
    | EndElement(tag: Tag)
    | TextNode(text: string)
    | Skipped
    | Broken

  /** A node as the builders see it: an empty element is opened and closed. */
  datatype Token =
    | Open(tag: Tag)
    | Close(tag: Tag)
    | Chars(text: string)
    | Space
    | Bad

  function TokensOf(n: Node): seq<Token> {
    match n
    case Element(t, isEmpty) => if isEmpty then [Open(t), Close(t)] else [Open(t)]
    case EndElement(t) => [Close(t)]
    case TextNode(s) => [Chars(s)]
    case Skipped => [Space]
    case Broken => [Bad]
  }

  function Tokens(ns: seq<Node>): seq<Token> {
    if ns == [] then [] else TokensOf(ns[0]) + Tokens(ns[1..])
  }

  lemma {:induction false} TokensConcat(a: seq<Node>, b: seq<Node>)
    ensures Tokens(a + b) == Tokens(a) + Tokens(b)
  {
    if a == [] {
      assert a + b == b;
    } else {
      assert (a + b)[1..] == a[1..] + b;
      TokensConcat(a[1..], b);
    }
  }

  /** How character data comes back from a reader: not at all when there is
      none, and not as text when it is all white space. */
  function TextNodes(s: string): seq<Node> {
    if s == "" then [] else if AllXmlSpace(s) then [Skipped] else [TextNode(s)]
  }

  function TextTokens(s: string): seq<Token> {
    if s == "" then [] else if AllXmlSpace(s) then [Space] else [Chars(s)]
  }
}
