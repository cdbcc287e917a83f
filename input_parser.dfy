/**
 * The command-line helpers of `planetaria`: `input_parser`, which keeps the arguments after
 * the program name and answers "is this option present" and "what follows it", and
 * `iequals`, the case-insensitive comparison used on command and planet names.
 */
module CommandLine {

  /** `std::find` over the tokens: the first index holding `option`, or the length when none does. */
  function IndexOf(tokens: seq<string>, option: string): (r: nat)
    ensures r <= |tokens|
    ensures r < |tokens| ==> tokens[r] == option
    ensures option !in tokens[..r]
    ensures r == |tokens| <==> option !in tokens
  {
    if tokens == [] then 0
    else if tokens[0] == option then 0
    else
      var rest := IndexOf(tokens[1..], option);
      assert tokens[..rest + 1] == [tokens[0]] + tokens[1..][..rest];
      assert tokens == [tokens[0]] + tokens[1..];
      rest + 1
  }

  /** `input_parser`: the argument tokens, program name dropped. */
  class InputParser {
    var tokens: seq<string>

    /** Keeps `argv[1]` to `argv[argc - 1]` in order. */
    constructor (argv: seq<string>)
      ensures tokens == if |argv| == 0 then [] else argv[1..]
    {
      tokens := [];
      new;
      var i := 1;
      while i < |argv|
        invariant 1 <= i && (i <= |argv| || i == 1)
        invariant tokens == if |argv| == 0 then [] else argv[1..i]
      {
        tokens := tokens + [argv[i]];
        i := i + 1;
      }
    }

    /**
     * `getCmdOption`: the token right after the first occurrence of `option`; the empty
     * string when `option` is absent or is the last token.
     */
    function GetCmdOption(option: string): (r: string)
      reads this
      ensures option !in tokens ==> r == ""
      ensures forall i :: 0 <= i < |tokens| && tokens[i] == option && option !in tokens[..i] ==>
        r == if i + 1 < |tokens| then tokens[i + 1] else ""
    {
      var itr := IndexOf(tokens, option);
      if itr < |tokens| && itr + 1 < |tokens| then tokens[itr + 1] else ""
    }

    /** `cmdOptionExists`: `option` is one of the tokens. */
    function CmdOptionExists(option: string): (b: bool)
      reads this
      ensures b <==> exists i :: 0 <= i < |tokens| && tokens[i] == option
    {
      IndexOf(tokens, option) != |tokens|
    }
  }

  /**
   * `std::toupper` in the classic locale: an ASCII lower-case letter maps to its upper-case
   * letter, 32 code points lower; every other character is unchanged.
   */
  function ToUpper(c: char): (r: char)
    ensures 'a' <= c <= 'z' ==> 'A' <= r <= 'Z' && r as int == c as int - 32
    ensures !('a' <= c <= 'z') ==> r == c
  {
    if 'a' <= c <= 'z' then (c as int - 32) as char else c
  }

  /** Upper-casing twice is upper-casing once, and never yields a lower-case letter. */
  lemma ToUpperIdempotent(c: char)
    ensures ToUpper(ToUpper(c)) == ToUpper(c)
    ensures !('a' <= ToUpper(c) <= 'z')
  {
  }

  /** `std::equal` with the upper-casing comparison, from position `i` on. */
  function EqualFrom(l: string, r: string, i: nat): (b: bool)
    requires |l| == |r| && i <= |l|
    ensures b <==> forall k :: i <= k < |l| ==> ToUpper(l[k]) == ToUpper(r[k])
    decreases |l| - i
  {
    if i == |l| then true
    else ToUpper(l[i]) == ToUpper(r[i]) && EqualFrom(l, r, i + 1)
  }

  /**
   * `iequals`: false when the lengths differ (the four-iterator `std::equal`), otherwise
   * whether the strings agree character by character after upper-casing.
   */
  function IEquals(l: string, r: string): (b: bool)
    ensures b <==> |l| == |r| && forall k :: 0 <= k < |l| ==> ToUpper(l[k]) == ToUpper(r[k])
  {
    |l| == |r| && EqualFrom(l, r, 0)
  }

  /**
   * The string with every letter upper-cased: it has no lower-case letter left, and it
   * agrees with the original character by character once both are upper-cased.
   */
  function Upper(s: string): (u: string)
    ensures |u| == |s|
    ensures forall k :: 0 <= k < |u| ==> !('a' <= u[k] <= 'z')
    ensures forall k :: 0 <= k < |s| ==> ToUpper(u[k]) == ToUpper(s[k])
  {
    seq(|s|, k requires 0 <= k < |s| => ToUpper(s[k]))
  }

  /**
   * `iequals` is an equivalence that ignores case: it holds exactly when the upper-cased
   * strings are equal, so it is reflexive, symmetric and transitive.
   */
  lemma IEqualsIsUpperEquality(l: string, r: string)
    ensures IEquals(l, r) <==> Upper(l) == Upper(r)
  {
    if Upper(l) == Upper(r) {
      assert |l| == |r|;
      forall k | 0 <= k < |l| ensures ToUpper(l[k]) == ToUpper(r[k]) {
        assert Upper(l)[k] == Upper(r)[k];
      }
    }
  }

  /** A string equals its upper-cased form, ignoring case. */
  lemma IEqualsUpper(s: string)
    ensures IEquals(s, Upper(s))
  {
    forall k | 0 <= k < |s| ensures ToUpper(s[k]) == ToUpper(Upper(s)[k]) {
      ToUpperIdempotent(s[k]);
    }
  }
}
