/**
 * `generate_password`: 8 to 10 letters, 2 to 4 symbols and 2 to 4 digits drawn
 * with replacement from three fixed lists, concatenated, then shuffled.
 * The random draws are inputs: the index of each `choice` in its list (so the
 * number of indices is the `randint` count) and the swap partner of each step of
 * `random.shuffle`'s Fisher-Yates loop.
 */
module Generator {

  /** The 52 letters, lower case first, as main.py lists them. */
  const Letters: seq<char> := LowerCase + UpperCase
  const LowerCase: seq<char> := "abcdefghijklmnopqrstuvwxyz"
  const UpperCase: seq<char> := "ABCDEFGHIJKLMNOPQRSTUVWXYZ"
  const Numbers: seq<char> := "0123456789"
  const Symbols: seq<char> := "!#$%&()*+"

  /** Each index picks an element of `alphabet`. */
  predicate ValidPicks(alphabet: seq<char>, picks: seq<nat>)
  {
    forall i :: 0 <= i < |picks| ==> picks[i] < |alphabet|
  }

  /** `[choice(alphabet) for _ in range(|picks|)]`, where the i-th `choice` chose `picks[i]`. */
  function Pick(alphabet: seq<char>, picks: seq<nat>): (r: seq<char>)
    requires ValidPicks(alphabet, picks)
    ensures |r| == |picks|
    ensures forall c :: c in r ==> c in alphabet
  {
    seq(|picks|, i requires 0 <= i < |picks| => alphabet[picks[i]])
  }

  /** `password_letters + password_symbols + password_numbers`, before the shuffle. */
  function Compose(letterPicks: seq<nat>, symbolPicks: seq<nat>, numberPicks: seq<nat>): (r: seq<char>)
    requires ValidPicks(Letters, letterPicks) && ValidPicks(Symbols, symbolPicks) && ValidPicks(Numbers, numberPicks)
    ensures |r| == |letterPicks| + |symbolPicks| + |numberPicks|
  {
    Pick(Letters, letterPicks) + Pick(Symbols, symbolPicks) + Pick(Numbers, numberPicks)
  }

  /** How many characters of `s` belong to `alphabet`. */
  function CountIn(s: seq<char>, alphabet: seq<char>): (n: nat)
    ensures n <= |s|
  {
    if s == [] then 0 else (if s[0] in alphabet then 1 else 0) + CountIn(s[1..], alphabet)
  }

  lemma {:induction false} CountInAppend(s: seq<char>, t: seq<char>, alphabet: seq<char>)
    ensures CountIn(s + t, alphabet) == CountIn(s, alphabet) + CountIn(t, alphabet)
    decreases |s|
  {
    if s == [] {
      assert s + t == t;
    } else {
      assert (s + t)[0] == s[0] && (s + t)[1..] == s[1..] + t;
      CountInAppend(s[1..], t, alphabet);
    }
  }

  /** Taking out the character at `k` lowers the count by that character's own count. */
  lemma CountInRemove(t: seq<char>, k: nat, alphabet: seq<char>)
    requires k < |t|
    ensures CountIn(t, alphabet) == CountIn(t[..k] + t[k + 1..], alphabet) + CountIn([t[k]], alphabet)
  {
    assert t == t[..k] + ([t[k]] + t[k + 1..]);
    CountInAppend(t[..k], [t[k]] + t[k + 1..], alphabet);
    CountInAppend([t[k]], t[k + 1..], alphabet);
    CountInAppend(t[..k], t[k + 1..], alphabet);
  }

  /** Taking out the character at `k` takes one copy of it out of the multiset. */
  lemma MultisetRemove(t: seq<char>, k: nat)
    requires k < |t|
    ensures multiset(t[..k] + t[k + 1..]) == multiset(t) - multiset{t[k]}
  {
    assert t == t[..k] + [t[k]] + t[k + 1..];
  }

  /** Counting a class depends only on the multiset of characters, so a shuffle keeps every count. */
  lemma {:induction false} CountInPermutation(s: seq<char>, t: seq<char>, alphabet: seq<char>)
    requires multiset(s) == multiset(t)
    ensures CountIn(s, alphabet) == CountIn(t, alphabet)
    decreases |s|
  {
    if s == [] {
      assert |t| == |multiset(t)| == 0;
    } else {
      assert s[0] in multiset(t);
      var k :| 0 <= k < |t| && t[k] == s[0];
      var rest := t[..k] + t[k + 1..];
      MultisetRemove(t, k);
      assert s == [s[0]] + s[1..];
      assert multiset(s[1..]) == multiset(s) - multiset{s[0]};
      CountInPermutation(s[1..], rest, alphabet);
      CountInRemove(t, k, alphabet);
    }
  }

  /** All of `s` lies in `alphabet`. */
  lemma {:induction false} CountInAll(s: seq<char>, alphabet: seq<char>)
    requires forall c :: c in s ==> c in alphabet
    ensures CountIn(s, alphabet) == |s|
  {
    if s != [] {
      assert s[0] in s;
      CountInAll(s[1..], alphabet);
    }
  }

  /** None of `s` lies in `alphabet`. */
  lemma {:induction false} CountInNone(s: seq<char>, alphabet: seq<char>)
    requires forall c :: c in s ==> c !in alphabet
    ensures CountIn(s, alphabet) == 0
  {
    if s != [] {
      assert s[0] in s;
      CountInNone(s[1..], alphabet);
    }
  }

  /** The symbols lie at or below '+', the digits between '0' and '9', the letters at or above 'A'. */
  lemma SymbolsRange()
    ensures forall c :: c in Symbols ==> c <= '+'
  {
    assert forall i :: 0 <= i < |Symbols| ==> Symbols[i] <= '+';
  }

  lemma NumbersRange()
    ensures forall c :: c in Numbers ==> '0' <= c <= '9'
  {
    assert forall i :: 0 <= i < |Numbers| ==> '0' <= Numbers[i] <= '9';
  }

  lemma LowerCaseRange()
    ensures forall c :: c in LowerCase ==> 'a' <= c <= 'z'
  {
    assert forall i :: 0 <= i < |LowerCase| ==> 'a' <= LowerCase[i] <= 'z';
  }

  lemma UpperCaseRange()
    ensures forall c :: c in UpperCase ==> 'A' <= c <= 'Z'
  {
    assert forall i :: 0 <= i < |UpperCase| ==> 'A' <= UpperCase[i] <= 'Z';
  }

  lemma LettersRange()
    ensures forall c :: c in Letters ==> 'A' <= c
  {
    LowerCaseRange();
    UpperCaseRange();
    assert forall c :: c in Letters ==> c in LowerCase || c in UpperCase;
  }

  /** The three lists share no character. */
  lemma AlphabetsDisjoint()
    ensures forall c :: c in Symbols ==> c !in Letters && c !in Numbers
    ensures forall c :: c in Numbers ==> c !in Letters
  {
    SymbolsRange();
    NumbersRange();
    LettersRange();
  }

  /** The composed list has exactly as many letters as were drawn. */
  lemma ComposeLetters(l: seq<char>, s: seq<char>, n: seq<char>)
    requires forall c :: c in l ==> c in Letters
    requires forall c :: c in s ==> c in Symbols
    requires forall c :: c in n ==> c in Numbers
    ensures CountIn(l + s + n, Letters) == |l|
  {
    AlphabetsDisjoint();
    CountInAppend(l + s, n, Letters);
    CountInAppend(l, s, Letters);
    CountInAll(l, Letters);
    CountInNone(s, Letters);
    CountInNone(n, Letters);
  }

  /** The composed list has exactly as many symbols as were drawn. */
  lemma ComposeSymbols(l: seq<char>, s: seq<char>, n: seq<char>)
    requires forall c :: c in l ==> c in Letters
    requires forall c :: c in s ==> c in Symbols
    requires forall c :: c in n ==> c in Numbers
    ensures CountIn(l + s + n, Symbols) == |s|
  {
    AlphabetsDisjoint();
    CountInAppend(l + s, n, Symbols);
    CountInAppend(l, s, Symbols);
    CountInNone(l, Symbols);
    CountInAll(s, Symbols);
    CountInNone(n, Symbols);
  }

  /** The composed list has exactly as many digits as were drawn. */
  lemma ComposeNumbers(l: seq<char>, s: seq<char>, n: seq<char>)
    requires forall c :: c in l ==> c in Letters
    requires forall c :: c in s ==> c in Symbols
    requires forall c :: c in n ==> c in Numbers
    ensures CountIn(l + s + n, Numbers) == |n|
  {
    AlphabetsDisjoint();
    CountInAppend(l + s, n, Numbers);
    CountInAppend(l, s, Numbers);
    CountInNone(l, Numbers);
    CountInNone(s, Numbers);
    CountInAll(n, Numbers);
  }

  /** Each class of the composed list has exactly as many characters as were drawn for it. */
  lemma ComposeCounts(letterPicks: seq<nat>, symbolPicks: seq<nat>, numberPicks: seq<nat>)
    requires ValidPicks(Letters, letterPicks) && ValidPicks(Symbols, symbolPicks) && ValidPicks(Numbers, numberPicks)
    ensures CountIn(Compose(letterPicks, symbolPicks, numberPicks), Letters) == |letterPicks|
    ensures CountIn(Compose(letterPicks, symbolPicks, numberPicks), Symbols) == |symbolPicks|
    ensures CountIn(Compose(letterPicks, symbolPicks, numberPicks), Numbers) == |numberPicks|
  {
    var l, s, n := Pick(Letters, letterPicks), Pick(Symbols, symbolPicks), Pick(Numbers, numberPicks);
    ComposeLetters(l, s, n);
    ComposeSymbols(l, s, n);
    ComposeNumbers(l, s, n);
  }

  /** Swap partners for `random.shuffle` on a list of length `n`: step i swaps with some j <= i. */
  predicate ValidDraws(draws: seq<nat>, n: nat)
  {
    |draws| == n && forall i :: 0 <= i < |draws| ==> draws[i] <= i
  }

  /**
   * `random.shuffle`: for i from n-1 down to 1, swap a[i] with a[draws[i]]
   * (`draws[i]` is the `randbelow(i + 1)` of that step; `draws[0]` is not used).
   */
  method Shuffle<T>(a: array<T>, draws: seq<nat>)
    requires ValidDraws(draws, a.Length)
    modifies a
    ensures multiset(a[..]) == multiset(old(a[..]))
  {
    var i := a.Length;
    while i > 1
      invariant 0 <= i <= a.Length
      invariant multiset(a[..]) == multiset(old(a[..]))
    {
      i := i - 1;
      var j := draws[i];
      a[i], a[j] := a[j], a[i];
    }
  }

  /** `generate_password` without the entry field and the clipboard. */
  method Generate(letterPicks: seq<nat>, symbolPicks: seq<nat>, numberPicks: seq<nat>, draws: seq<nat>)
    returns (password: string)
    requires 8 <= |letterPicks| <= 10 && 2 <= |symbolPicks| <= 4 && 2 <= |numberPicks| <= 4
    requires ValidPicks(Letters, letterPicks) && ValidPicks(Symbols, symbolPicks) && ValidPicks(Numbers, numberPicks)
    requires ValidDraws(draws, |letterPicks| + |symbolPicks| + |numberPicks|)
    ensures 12 <= |password| <= 18
    ensures multiset(password) == multiset(Compose(letterPicks, symbolPicks, numberPicks))
    ensures forall c :: c in password ==> c in Letters || c in Symbols || c in Numbers
    ensures CountIn(password, Letters) == |letterPicks|
    ensures CountIn(password, Symbols) == |symbolPicks|
    ensures CountIn(password, Numbers) == |numberPicks|
  {
    var list := Compose(letterPicks, symbolPicks, numberPicks);
    var a := new char[|list|](i requires 0 <= i < |list| => list[i]);
    assert a[..] == list;
    Shuffle(a, draws);
    password := a[..];
    forall c | c in password
      ensures c in Letters || c in Symbols || c in Numbers
    {
      assert c in multiset(list);
    }
    ComposeCounts(letterPicks, symbolPicks, numberPicks);
    CountInPermutation(password, list, Letters);
    CountInPermutation(password, list, Symbols);
    CountInPermutation(password, list, Numbers);
  }
}
