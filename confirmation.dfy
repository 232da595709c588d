/**
 * The yes/no exchange the price setter runs before it lowers a price
 * (src/main.py:31-46). The console is replaced by the answers the user
 * would type, in order; each answer is lowercased and compared with
 * "y" and "n", and any other answer makes the setter ask again.
 */
module Confirmation {

  /** Lowercasing of one character (ASCII letters only). */
  function LowerChar(c: char): char {
    if 'A' <= c <= 'Z' then (c as int - 'A' as int + 'a' as int) as char else c
  }

  /** `str.lower()`, character by character. */
  function Lower(s: string): (t: string)
    ensures |t| == |s|
    ensures forall i :: 0 <= i < |s| ==> t[i] == LowerChar(s[i])
  {
    if s == [] then [] else [LowerChar(s[0])] + Lower(s[1..])
  }

  predicate IsYes(answer: string) {
    Lower(answer) == "y"
  }

  predicate IsNo(answer: string) {
    Lower(answer) == "n"
  }

  /** An answer that ends the exchange; every other answer is asked again. */
  predicate IsValid(answer: string) {
    IsYes(answer) || IsNo(answer)
  }

  /** The comparison is case-insensitive: exactly "y" and "Y" affirm. */
  lemma YesTokens(answer: string)
    ensures IsYes(answer) <==> answer == "y" || answer == "Y"
  {
  }

  /** Exactly "n" and "N" decline. */
  lemma NoTokens(answer: string)
    ensures IsNo(answer) <==> answer == "n" || answer == "N"
  {
  }

  /**
   * How the exchange ends: affirmed or declined after reading `consumed`
   * answers, or the answers ran out before a valid one came.
   */
  datatype Decision = Affirmed(consumed: nat) | Declined(consumed: nat) | EndOfInput

  /** The exchange over the answers: the first valid answer decides. */
  function Ask(answers: seq<string>): (d: Decision)
    ensures d.EndOfInput? <==> forall j :: 0 <= j < |answers| ==> !IsValid(answers[j])
    ensures !d.EndOfInput? ==>
      1 <= d.consumed <= |answers| &&
      IsValid(answers[d.consumed - 1]) &&
      (d.Affirmed? <==> IsYes(answers[d.consumed - 1])) &&
      forall j :: 0 <= j < d.consumed - 1 ==> !IsValid(answers[j])
  {
    if answers == [] then EndOfInput
    else if IsYes(answers[0]) then Affirmed(1)
    else if IsNo(answers[0]) then Declined(1)
    else
      match Ask(answers[1..])
      case Affirmed(k) => Affirmed(k + 1)
      case Declined(k) => Declined(k + 1)
      case EndOfInput => EndOfInput
  }

  /** The first valid answer, at index `k`, decides the exchange and is the last one read. */
  lemma FirstValidDecides(answers: seq<string>, k: nat)
    requires k < |answers| && IsValid(answers[k])
    requires forall j :: 0 <= j < k ==> !IsValid(answers[j])
    ensures Ask(answers) == if IsYes(answers[k]) then Affirmed(k + 1) else Declined(k + 1)
  {
    var d := Ask(answers);
    assert !d.EndOfInput? by {
      assert IsValid(answers[k]);
    }
    var m := d.consumed - 1;
    assert IsValid(answers[m]);
    assert !(m < k);
    assert !(k < m);
  }

  /** `d` with `n` more answers read before it. */
  function Delayed(d: Decision, n: nat): Decision {
    match d
    case Affirmed(k) => Affirmed(k + n)
    case Declined(k) => Declined(k + n)
    case EndOfInput => EndOfInput
  }

  /** Invalid answers in front change nothing but the number of answers read. */
  lemma {:induction false} SkipsInvalid(junk: seq<string>, rest: seq<string>)
    requires forall j :: 0 <= j < |junk| ==> !IsValid(junk[j])
    ensures Ask(junk + rest) == Delayed(Ask(rest), |junk|)
  {
    if junk == [] {
      assert junk + rest == rest;
    } else {
      assert (junk + rest)[1..] == junk[1..] + rest;
      assert !IsValid((junk + rest)[0]);
      SkipsInvalid(junk[1..], rest);
    }
  }
}
