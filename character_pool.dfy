/** The symbols a game may spawn, derived from the player's character-set
    flags (`generateCharacterPool` in client/src/App.tsx). */
module CharacterPool {

  /** The six flags of a character set; `english` is stored with the settings
      and the scores but selects nothing. */
  datatype CharacterSet = CharacterSet(
    lowercase: bool,
    uppercase: bool,
    numbers: bool,
    special: bool,
    russian: bool,
    english: bool)

  /** The five check boxes of the settings screen; `english` has none. */
  datatype Flag = Lowercase | Uppercase | Numbers | Special | Russian

  /** The flag a check box shows. */
  function FlagOf(cs: CharacterSet, f: Flag): bool {
    match f
    case Lowercase => cs.lowercase
    case Uppercase => cs.uppercase
    case Numbers => cs.numbers
    case Special => cs.special
    case Russian => cs.russian
  }

  /** Ticking or clearing one check box: that flag takes the new value and
      every other flag, `english` included, keeps its own. */
  function WithFlag(cs: CharacterSet, f: Flag, checked: bool): (r: CharacterSet)
    ensures FlagOf(r, f) == checked
    ensures forall g :: g != f ==> FlagOf(r, g) == FlagOf(cs, g)
    ensures r.english == cs.english
  {
    match f
    case Lowercase => cs.(lowercase := checked)
    case Uppercase => cs.(uppercase := checked)
    case Numbers => cs.(numbers := checked)
    case Special => cs.(special := checked)
    case Russian => cs.(russian := checked)
  }

  /** The flags a new player starts with. */
  const DefaultCharacterSet := CharacterSet(true, false, false, false, false, true)

  const LowerLatin: string := "abcdefghijklmnopqrstuvwxyz"
  const UpperLatin: string := "ABCDEFGHIJKLMNOPQRSTUVWXYZ"
  const Digits: string := "0123456789"
  const Special: string := "!@#$%^&*()"
  const LowerCyrillic: string := "абвгдеёжзийклмнопрстуфхцчшщъыьэюя"
  const UpperCyrillic: string := "АБВГДЕЁЖЗИЙКЛМНОПРСТУФХЦЧШЩЪЫЬЭЮЯ"
  /** Used when no flag selects anything, so that the pool is never empty. */
  const Fallback: string := "abc"

  /** `s` when its flag is set, nothing otherwise. */
  function Part(flag: bool, s: string): string {
    if flag then s else []
  }

  /** The sub-alphabets the flags select, one after another, in the order
      they enter the pool. Upper-case Cyrillic is gated on both `russian`
      and `uppercase`. */
  function Selection(cs: CharacterSet): string {
    Part(cs.lowercase, LowerLatin)
    + Part(cs.uppercase, UpperLatin)
    + Part(cs.numbers, Digits)
    + Part(cs.special, Special)
    + Part(cs.russian, LowerCyrillic)
    + Part(cs.russian && cs.uppercase, UpperCyrillic)
  }

  /** The spawn pool: the selection, or the fallback when that is empty. */
  function Pool(cs: CharacterSet): (p: string)
    ensures |p| > 0
  {
    var p := Selection(cs);
    if p == [] then Fallback else p
  }

  /** True when no flag selects a sub-alphabet. */
  predicate NothingSelected(cs: CharacterSet) {
    !cs.lowercase && !cs.uppercase && !cs.numbers && !cs.special && !cs.russian
  }

  /** Builds the pool by appending each selected sub-alphabet in turn. */
  method GenerateCharacterPool(cs: CharacterSet) returns (pool: string)
    ensures pool == Pool(cs)
    ensures |pool| > 0
  {
    pool := [];
    if cs.lowercase {
      pool := pool + LowerLatin;
    }
    assert pool == Part(cs.lowercase, LowerLatin);
    if cs.uppercase {
      pool := pool + UpperLatin;
    }
    assert pool == Part(cs.lowercase, LowerLatin) + Part(cs.uppercase, UpperLatin);
    if cs.numbers {
      pool := pool + Digits;
    }
    assert pool == Part(cs.lowercase, LowerLatin) + Part(cs.uppercase, UpperLatin)
      + Part(cs.numbers, Digits);
    if cs.special {
      pool := pool + Special;
    }
    ghost var beforeRussian := pool;
    assert pool == Part(cs.lowercase, LowerLatin) + Part(cs.uppercase, UpperLatin)
      + Part(cs.numbers, Digits) + Part(cs.special, Special);
    if cs.russian {
      pool := pool + LowerCyrillic;
      if cs.uppercase {
        pool := pool + UpperCyrillic;
      }
    }
    assert pool == beforeRussian + Part(cs.russian, LowerCyrillic)
      + Part(cs.russian && cs.uppercase, UpperCyrillic);
    if |pool| == 0 {
      pool := Fallback;
    }
  }

  /** The pool is never empty; it is the fallback exactly when no flag
      selects anything. */
  lemma PoolFallback(cs: CharacterSet)
    ensures |Pool(cs)| > 0
    ensures Pool(cs) == Fallback <==> NothingSelected(cs)
  {
  }

  /** A symbol can be spawned exactly when a selected sub-alphabet holds it,
      or when nothing is selected and the fallback holds it. */
  lemma PoolMembership(cs: CharacterSet, c: char)
    ensures c in Pool(cs) <==>
      || (cs.lowercase && c in LowerLatin)
      || (cs.uppercase && c in UpperLatin)
      || (cs.numbers && c in Digits)
      || (cs.special && c in Special)
      || (cs.russian && c in LowerCyrillic)
      || (cs.russian && cs.uppercase && c in UpperCyrillic)
      || (NothingSelected(cs) && c in Fallback)
  {
  }

  /** The pool's size: 26, 26, 10, 10, 33 and 33 symbols for the six
      sub-alphabets, or 3 for the fallback. */
  lemma PoolSize(cs: CharacterSet)
    ensures |Pool(cs)| ==
      if NothingSelected(cs) then 3
      else
        (if cs.lowercase then 26 else 0)
        + (if cs.uppercase then 26 else 0)
        + (if cs.numbers then 10 else 0)
        + (if cs.special then 10 else 0)
        + (if cs.russian then 33 else 0)
        + (if cs.russian && cs.uppercase then 33 else 0)
  {
  }

  /** `english` has no effect on the pool. */
  lemma EnglishIgnored(cs: CharacterSet, english: bool)
    ensures Pool(cs.(english := english)) == Pool(cs)
  {
  }

  /** Every symbol outside the Cyrillic blocks is ASCII, the lower-case
      Cyrillic letters lie in U+0430..U+0451 and the upper-case ones in
      U+0401..U+042F, so no two of those groups share a symbol. */
  lemma AlphabetRanges()
    ensures forall i :: 0 <= i < |UpperCyrillic| ==> '\U{0401}' <= UpperCyrillic[i] <= '\U{042F}'
    ensures forall i :: 0 <= i < |LowerCyrillic| ==> '\U{0430}' <= LowerCyrillic[i] <= '\U{0451}'
    ensures forall i :: 0 <= i < |LowerLatin| ==> LowerLatin[i] < '\U{0080}'
    ensures forall i :: 0 <= i < |UpperLatin| ==> UpperLatin[i] < '\U{0080}'
    ensures forall i :: 0 <= i < |Digits| ==> Digits[i] < '\U{0080}'
    ensures forall i :: 0 <= i < |Special| ==> Special[i] < '\U{0080}'
    ensures forall i :: 0 <= i < |Fallback| ==> Fallback[i] < '\U{0080}'
  {
  }

  /** Upper-case Cyrillic letters can be spawned exactly when both `russian`
      and `uppercase` are set: `uppercase` alone does not bring them in, and
      `russian` alone brings in only the lower-case ones. */
  lemma UpperCyrillicGated(cs: CharacterSet, c: char)
    requires c in UpperCyrillic
    ensures c in Pool(cs) <==> cs.russian && cs.uppercase
  {
    AlphabetRanges();
    PoolMembership(cs, c);
  }
}
