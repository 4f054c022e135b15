/** codeGenerator: room codes are six characters from an alphabet without 0, O, 1, I and l. */
module CodeGenerator {

  const ALPHABET: string := "23456789ABCDEFGHJKLMNPQRSTUVWXYZ"
  const CODE_LENGTH: nat := 6

  /** The character class of the check's regular expression, /^[23456789ABCDEFGHJKLMNPQRSTUVWXYZ]{6}$/. */
  predicate MatchesCodePattern(code: string) {
    |code| == CODE_LENGTH && forall i :: 0 <= i < |code| ==> code[i] in ALPHABET
  }

  /** isValidGameCode: false for the empty string and for any other length, else the pattern test. */
  function IsValidGameCode(code: string): bool {
    if code == "" || |code| != CODE_LENGTH then false
    else MatchesCodePattern(code)
  }

  /** generateGameCode with its randomness made a parameter: the six alphabet positions drawn. */
  function GenerateGameCode(picks: seq<nat>): (code: string)
    requires |picks| == CODE_LENGTH
    requires forall i :: 0 <= i < |picks| ==> picks[i] < |ALPHABET|
    ensures IsValidGameCode(code)
    ensures forall i :: 0 <= i < CODE_LENGTH ==> code[i] == ALPHABET[picks[i]]
  {
    seq(CODE_LENGTH, i requires 0 <= i < CODE_LENGTH => ALPHABET[picks[i]])
  }

  /** Position of the first occurrence of c in s. */
  function IndexOf(s: string, c: char): (k: nat)
    requires c in s
    ensures k < |s| && s[k] == c
    ensures forall j :: 0 <= j < k ==> s[j] != c
  {
    if s[0] == c then 0 else 1 + IndexOf(s[1..], c)
  }

  /** Every valid code is one that generateGameCode can draw, so the validity test accepts
      exactly the generator's range. */
  lemma ValidCodeIsGenerated(code: string)
    requires IsValidGameCode(code)
    ensures exists picks: seq<nat> ::
      |picks| == CODE_LENGTH && (forall i :: 0 <= i < |picks| ==> picks[i] < |ALPHABET|)
      && GenerateGameCode(picks) == code
  {
    var picks := seq(CODE_LENGTH, i requires 0 <= i < CODE_LENGTH => IndexOf(ALPHABET, code[i]));
    assert GenerateGameCode(picks) == code;
  }

  /** The digits 2 to 9 and the upper-case letters other than I and O. */
  predicate Unambiguous(c: char) {
    ('2' <= c <= '9') || ('A' <= c <= 'Z' && c != 'I' && c != 'O')
  }

  lemma AlphabetEntryUnambiguous(k: nat)
    requires k < |ALPHABET|
    ensures Unambiguous(ALPHABET[k])
  {
  }

  lemma UnambiguousInAlphabet(c: char)
    requires Unambiguous(c)
    ensures c in ALPHABET
  {
    if '2' <= c <= '9' {
      assert ALPHABET[c as int - '2' as int] == c;
    } else if c < 'I' {
      assert ALPHABET[8 + c as int - 'A' as int] == c;
    } else if c < 'O' {
      assert ALPHABET[7 + c as int - 'A' as int] == c;
    } else {
      assert ALPHABET[6 + c as int - 'A' as int] == c;
    }
  }

  /** The alphabet is exactly the unambiguous characters. */
  lemma AlphabetCharacters(c: char)
    ensures c in ALPHABET <==> Unambiguous(c)
  {
    if c in ALPHABET {
      AlphabetEntryUnambiguous(IndexOf(ALPHABET, c));
    }
    if Unambiguous(c) {
      UnambiguousInAlphabet(c);
    }
  }

  /** Wrong lengths, the ambiguous characters 0, 1, O, I and every lower-case letter are refused. */
  lemma RejectsAmbiguousCharacters(code: string, i: nat)
    requires i < |code|
    requires code[i] in "01OI" || 'a' <= code[i] <= 'z'
    ensures !IsValidGameCode(code)
  {
    AlphabetCharacters(code[i]);
  }

  lemma RejectsWrongLength(code: string)
    requires |code| != CODE_LENGTH
    ensures !IsValidGameCode(code)
  {
  }
}
