/** utils.go: joining a list of errors into one, the 62-character
    alphabet random identifiers are drawn from, and half the uint16
    range. */
module Utils {
  import opened Common

  /** uint16SizeHalf: 1 << 15. */
  const Uint16SizeHalf: uint16 := 0x8000

  /** The message FlattenErrors builds: every error's text followed by a
      newline, in list order. */
  function ErrorText(errs: seq<Error>): string
  {
    if errs == [] then ""
    else ErrorText(errs[..|errs| - 1]) + errs[|errs| - 1].message + "\n"
  }

  /** FlattenErrors as a value: nil for no errors, otherwise one error
      carrying ErrorText. */
  function Flattened(errs: seq<Error>): Option<Error>
  {
    if errs == [] then None else Some(Error(ErrorText(errs)))
  }

  /** The length of the flattened message, summed error by error from the
      front: each message and its newline. */
  function TextLength(errs: seq<Error>): nat
  {
    if errs == [] then 0 else |errs[0].message| + 1 + TextLength(errs[1..])
  }

  /** Flattening a concatenation concatenates the flattened messages, so
      the messages appear in list order. */
  lemma {:induction false} ErrorTextAppend(a: seq<Error>, b: seq<Error>)
    ensures ErrorText(a + b) == ErrorText(a) + ErrorText(b)
    decreases |b|
  {
    if b == [] {
      assert a + b == a;
    } else {
      var b' := b[..|b| - 1];
      assert (a + b)[..|a + b| - 1] == a + b';
      ErrorTextAppend(a, b');
    }
  }

  /** The first error's text leads the message, then the rest in order. */
  lemma ErrorTextCons(e: Error, rest: seq<Error>)
    ensures ErrorText([e] + rest) == e.message + "\n" + ErrorText(rest)
  {
    ErrorTextAppend([e], rest);
    assert [e][..0] == [];
  }

  /** The message length is the sum of every message length plus one. */
  lemma {:induction false} ErrorTextLength(errs: seq<Error>)
    ensures |ErrorText(errs)| == TextLength(errs)
    decreases |errs|
  {
    if errs != [] {
      assert errs == [errs[0]] + errs[1..];
      ErrorTextCons(errs[0], errs[1..]);
      ErrorTextLength(errs[1..]);
    }
  }

  /** FlattenErrors: nil for an empty list; otherwise an error whose text
      accumulates each message and a newline, even when every message is
      empty. */
  method FlattenErrors(errs: seq<Error>) returns (err: Option<Error>)
    ensures err.None? <==> errs == []
    ensures err.Some? ==> err.value.message == ErrorText(errs)
    ensures err == Flattened(errs)
  {
    if |errs| == 0 {
      return None;
    }
    var text := "";
    for i := 0 to |errs|
      invariant text == ErrorText(errs[..i])
    {
      assert errs[..i + 1][..i] == errs[..i];
      text := text + errs[i].message + "\n";
    }
    assert errs[..|errs|] == errs;
    return Some(Error(text));
  }

  /** customChars, written in the rows of five of its declaration. */
  const CustomChars: seq<char> :=
    ['A', 'B', 'C', 'D', 'E']
    + ['F', 'G', 'H', 'I', 'J']
    + ['K', 'L', 'M', 'N', 'O']
    + ['P', 'Q', 'R', 'S', 'T']
    + ['U', 'V', 'W', 'X', 'Y']
    + ['Z', 'a', 'b', 'c', 'd']
    + ['e', 'f', 'g', 'h', 'i']
    + ['j', 'k', 'l', 'm', 'n']
    + ['o', 'p', 'q', 'r', 's']
    + ['t', 'u', 'v', 'w', 'x']
    + ['y', 'z', '0', '1', '2']
    + ['3', '4', '5', '6', '7']
    + ['8', '9']

  /** The i-th character of the alphabet A-Z, a-z, 0-9. */
  function AlphabetChar(i: nat): char
    requires i < 62
  {
    if i < 26 then ('A' as int + i) as char
    else if i < 52 then ('a' as int + (i - 26)) as char
    else ('0' as int + (i - 52)) as char
  }

  predicate IsAlphanumeric(c: char)
  {
    'A' <= c <= 'Z' || 'a' <= c <= 'z' || '0' <= c <= '9'
  }

  /** customChars lists A-Z, then a-z, then 0-9. */
  lemma CustomCharsInOrder()
    ensures |CustomChars| == 62
    ensures forall i :: 0 <= i < 62 ==> CustomChars[i] == AlphabetChar(i)
  {
  }

  /** customChars holds every ASCII letter and digit exactly once and
      nothing else. */
  lemma CustomCharsAlphabet()
    ensures |CustomChars| == 62
    ensures forall c :: c in CustomChars <==> IsAlphanumeric(c)
    ensures forall i, j :: 0 <= i < j < |CustomChars| ==> CustomChars[i] != CustomChars[j]
  {
    CustomCharsInOrder();
    forall c | IsAlphanumeric(c)
      ensures c in CustomChars
    {
      var i := if c <= '9' then c as int - '0' as int + 52
               else if c <= 'Z' then c as int - 'A' as int
               else c as int - 'a' as int + 26;
      assert CustomChars[i] == c;
    }
  }
}
