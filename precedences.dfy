/** Binding strength of the binary operators (package precedences). */
module Precedences {

  import opened Tokens

  const Lowest: nat := 1
  const Equals: nat := 2
  const Compare: nat := 3
  const Sum: nat := 4
  const Product: nat := 5
  const PrefixRank: nat := 6
  const Call: nat := 7

  /** The precedence table: the rank of each operator that has one. Only
      binary operators are listed; `&&` and `||` share the rank of `*`. */
  const Precedence: map<TokenType, nat> :=
    map[Eq := Equals, NotEq := Equals, Le := Equals, Ge := Equals,
        Lt := Compare, Gt := Compare,
        Plus := Sum, Minus := Sum,
        Asterisk := Product, Slash := Product, And := Product, Or := Product]

  /** A table lookup that falls back to `Lowest` for types without a rank. */
  function RankOf(t: TokenType): (r: nat)
    ensures Lowest <= r <= Product
    ensures r > Lowest <==> t in Precedence
    ensures r == Equals <==> t in {Eq, NotEq, Le, Ge}
    ensures r == Compare <==> t in {Lt, Gt}
    ensures r == Sum <==> t in {Plus, Minus}
    ensures r == Product <==> t in {Asterisk, Slash, And, Or}
  {
    if t in Precedence then Precedence[t] else Lowest
  }

  /** The table holds exactly the twelve binary operators. */
  lemma TableKeys()
    ensures Precedence.Keys == {Eq, NotEq, Le, Ge, Lt, Gt, Plus, Minus, Asterisk, Slash, And, Or}
  {
  }

  /** The ranks are strictly ordered, and no token type has the rank of a
      prefix operator or of a call. */
  lemma RankOrder(t: TokenType)
    ensures Lowest < Equals < Compare < Sum < Product < PrefixRank < Call
    ensures RankOf(t) < PrefixRank && RankOf(t) != Call
  {
  }
}
