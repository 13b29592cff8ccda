/** The two ciphers and the text cropping of the FAST mode. Letters are ASCII; every other
    character passes through unchanged and does not advance the key. */
module Ciphers {
  import opened Base26

  const CROP_LETTERS := 1000

  predicate IsLower(c: char) { 'a' <= c <= 'z' }

  predicate IsUpper(c: char) { 'A' <= c <= 'Z' }

  predicate IsAlpha(c: char) { IsLower(c) || IsUpper(c) }

  function Offset(c: char): int { if IsLower(c) then 'a' as int else 'A' as int }

  /** The place of a letter in the alphabet, whatever its case. */
  function Value(c: char): (v: nat)
    requires IsAlpha(c)
    ensures v < 26
    ensures IsUpper(c) ==> c == Letter(v)
    ensures IsLower(c) ==> c as int == Letter(v) as int + 32
  {
    c as int - Offset(c)
  }

  function ToLower(c: char): (l: char)
    ensures if IsAlpha(c) then IsLower(l) && Value(l) == Value(c) else l == c
  {
    if IsUpper(c) then (c as int + 32) as char else c
  }

  /** The remainder of C++ by 26: it takes the sign of the dividend. */
  function CRem26(a: int): (r: int)
    ensures -26 < r < 26 && (a - r) % 26 == 0
    ensures (r > 0 ==> a > 0) && (r < 0 ==> a < 0)
  {
    if a >= 0 then a % 26 else -((-a) % 26)
  }

  /** One letter moved back by `shift` places, keeping its case. */
  function Rotate(c: char, shift: int): char
    requires IsAlpha(c)
  {
    (CRem26(c as int - Offset(c) - shift + 26) + Offset(c)) as char
  }

  // ---------- Vigenere ----------

  function KeyShift(k: char): int { ToLower(k) as int - 'a' as int }

  function DecryptFrom(text: string, key: string, used: nat): (plain: string)
    requires key != ""
    ensures |plain| == |text|
  {
    if text == "" then ""
    else if IsAlpha(text[0]) then
      [Rotate(text[0], KeyShift(key[used % |key|]))] + DecryptFrom(text[1..], key, used + 1)
    else
      [text[0]] + DecryptFrom(text[1..], key, used)
  }

  function Decrypt(text: string, key: string): (plain: string)
    ensures |plain| == |text|
  {
    if key == "" then text else DecryptFrom(text, key, 0)
  }

  /** `p` is letter `c` moved back by `shift` places: congruent modulo 26, counted from the start of the alphabet of its
      own case, with the sign that the remainder of C++ gives to shifts out of range. */
  predicate MovedBack(c: char, p: char, shift: int)
    requires IsAlpha(c)
  {
    var place := p as int - (if IsLower(c) then 'a' else 'A') as int;
    && -26 < place < 26 && (place - (Value(c) - shift)) % 26 == 0
    && (place > 0 ==> Value(c) - shift + 26 > 0) && (place < 0 ==> Value(c) - shift + 26 < 0)
  }

  lemma RotateMovesBack(c: char, shift: int)
    requires IsAlpha(c)
    ensures MovedBack(c, Rotate(c, shift), shift)
  {
    var a := Value(c) - shift + 26;
    var r := CRem26(a);
    assert (r - (Value(c) - shift)) % 26 == 0 by {
      assert (a - r) % 26 == 0;
    }
  }

  /** For the shift of a letter, case is kept and the value is the difference modulo 26. */
  lemma MovedBackLetter(c: char, p: char, shift: nat)
    requires IsAlpha(c) && MovedBack(c, p, shift) && shift < 26
    ensures IsLower(p) == IsLower(c) && IsUpper(p) == IsUpper(c)
    ensures Value(p) == (Value(c) - shift + 26) % 26
  {
  }

  /** The places that a key character stands for. */
  function Places(k: char): int { if IsAlpha(k) then Value(k) else k as int - 'a' as int }

  lemma KeyShiftIsPlaces(k: char)
    ensures KeyShift(k) == Places(k)
  {
  }

  /** Character `i` of a plain text: what is no letter stays, a letter is moved back by the key character whose turn it
      is, that is, whose number is the number of letters before it. */
  ghost predicate PlainAt(plain: string, text: string, key: string, i: nat)
    requires i < |plain| == |text| && key != ""
  {
    if IsAlpha(text[i]) then MovedBack(text[i], plain[i], Places(key[|Letters(text[..i])| % |key|]))
    else plain[i] == text[i]
  }

  ghost predicate IsPlain(plain: string, text: string, key: string) {
    && |plain| == |text|
    && if key == "" then plain == text else forall i: nat :: i < |text| ==> PlainAt(plain, text, key, i)
  }

  lemma PlainIsUnique(p: string, q: string, text: string, key: string)
    requires IsPlain(p, text, key) && IsPlain(q, text, key)
    ensures p == q
  {
    if key != "" {
      forall i: nat | i < |text| ensures p[i] == q[i] {
        assert PlainAt(p, text, key, i) && PlainAt(q, text, key, i);
        if IsAlpha(text[i]) {
        }
      }
    }
  }

  lemma {:induction false} DecryptFromAt(text: string, key: string, used: nat, i: nat)
    requires key != "" && i < |text|
    ensures var p := DecryptFrom(text, key, used)[i];
            if IsAlpha(text[i]) then MovedBack(text[i], p, Places(key[(used + |Letters(text[..i])|) % |key|]))
            else p == text[i]
  {
    if i == 0 {
      assert text[..0] == "";
      if IsAlpha(text[0]) {
        KeyShiftIsPlaces(key[used % |key|]);
        RotateMovesBack(text[0], KeyShift(key[used % |key|]));
      }
    } else {
      var next := if IsAlpha(text[0]) then used + 1 else used;
      DecryptFromAt(text[1..], key, next, i - 1);
      assert text[..i][1..] == text[1..][..i - 1];
      assert next + |Letters(text[1..][..i - 1])| == used + |Letters(text[..i])|;
    }
  }

  lemma DecryptAt(text: string, key: string, i: nat)
    requires key != "" && i < |text|
    ensures PlainAt(Decrypt(text, key), text, key, i)
  {
    DecryptFromAt(text, key, 0, i);
    assert 0 + |Letters(text[..i])| == |Letters(text[..i])|;
  }

  lemma DecryptIsPlain(text: string, key: string)
    ensures IsPlain(Decrypt(text, key), text, key)
  {
    if key != "" {
      forall i: nat | i < |text| ensures PlainAt(Decrypt(text, key), text, key, i) {
        DecryptAt(text, key, i);
      }
    }
  }

  method DecryptLetters(text: string, key: string) returns (result: string)
    ensures result == Decrypt(text, key)
  {
    result := "";
    if |key| == 0 {
      return text;
    }
    var keyIndex := 0;
    for i := 0 to |text|
      invariant result + DecryptFrom(text[i..], key, keyIndex) == DecryptFrom(text, key, 0)
    {
      var c := text[i];
      assert text[i..][0] == c && text[i..][1..] == text[i + 1..];
      if IsAlpha(c) {
        result := result + [Rotate(c, KeyShift(key[keyIndex % |key|]))];
        keyIndex := keyIndex + 1;
      } else {
        result := result + [c];
      }
    }
  }

  method VigenereDecrypt(text: string, key: string) returns (result: string)
    ensures result == Decrypt(text, key) && IsPlain(result, text, key)
  {
    result := DecryptLetters(text, key);
    DecryptIsPlain(text, key);
  }

  // ---------- Caesar ----------

  /** The shift a Caesar key asks for; a key that is not one letter goes through std::stoi,
      which is a parameter here; where it throws, the result is NotANumber. */
  datatype Shift = Shift(places: int) | NotANumber

  function CaesarShift(key: string, stoi: string -> Shift): Shift {
    if |key| == 1 && IsAlpha(key[0]) then Shift(KeyShift(key[0])) else stoi(key)
  }

  function CaesarBy(text: string, shift: int): (plain: string)
    ensures |plain| == |text|
  {
    if text == "" then ""
    else [if IsAlpha(text[0]) then Rotate(text[0], shift) else text[0]] + CaesarBy(text[1..], shift)
  }

  lemma {:induction false} CaesarByAt(text: string, shift: int, i: nat)
    requires i < |text|
    ensures var p := CaesarBy(text, shift)[i]; if IsAlpha(text[i]) then MovedBack(text[i], p, shift) else p == text[i]
  {
    if i == 0 {
      if IsAlpha(text[0]) {
        RotateMovesBack(text[0], shift);
      }
    } else {
      CaesarByAt(text[1..], shift, i - 1);
    }
  }

  ghost predicate IsShifted(plain: string, text: string, shift: int) {
    && |plain| == |text|
    && forall i :: 0 <= i < |text| ==>
         if IsAlpha(text[i]) then MovedBack(text[i], plain[i], shift) else plain[i] == text[i]
  }

  lemma CaesarIsShifted(text: string, shift: int)
    ensures IsShifted(CaesarBy(text, shift), text, shift)
  {
    var plain := CaesarBy(text, shift);
    forall i | 0 <= i < |text|
      ensures if IsAlpha(text[i]) then MovedBack(text[i], plain[i], shift) else plain[i] == text[i]
    {
      CaesarByAt(text, shift, i);
    }
  }

  method ShiftLetters(text: string, shift: int) returns (result: string)
    ensures result == CaesarBy(text, shift)
  {
    result := "";
    for i := 0 to |text|
      invariant result + CaesarBy(text[i..], shift) == CaesarBy(text, shift)
    {
      assert text[i..][0] == text[i] && text[i..][1..] == text[i + 1..];
      if IsAlpha(text[i]) {
        result := result + [Rotate(text[i], shift)];
      } else {
        result := result + [text[i]];
      }
    }
  }

  method CaesarDecrypt(text: string, key: string, stoi: string -> Shift) returns (ok: bool, result: string)
    ensures ok <==> CaesarShift(key, stoi).Shift?
    ensures ok ==> result == CaesarBy(text, CaesarShift(key, stoi).places)
    ensures |key| == 1 && IsAlpha(key[0]) ==> ok && IsShifted(result, text, Value(key[0]))
    ensures !(|key| == 1 && IsAlpha(key[0])) ==>
              (ok <==> stoi(key).Shift?) && (ok ==> IsShifted(result, text, stoi(key).places))
  {
    var parsed := CaesarShift(key, stoi);
    if parsed.NotANumber? {
      return false, "";
    }
    ok := true;
    result := ShiftLetters(text, parsed.places);
    CaesarIsShifted(text, parsed.places);
    if |key| == 1 && IsAlpha(key[0]) {
      KeyShiftIsPlaces(key[0]);
    }
  }

  lemma {:induction false} OneLetterVigenere(text: string, key: string, used: nat)
    requires |key| == 1
    ensures DecryptFrom(text, key, used) == CaesarBy(text, KeyShift(key[0]))
  {
    if text == "" {
    } else {
      assert used % 1 == 0;
      OneLetterVigenere(text[1..], key, if IsAlpha(text[0]) then used + 1 else used);
    }
  }

  /** A Vigenere key of one letter decrypts exactly as the Caesar cipher with that key. */
  lemma OneLetterKeyIsCaesar(text: string, key: string, stoi: string -> Shift)
    requires |key| == 1 && IsAlpha(key[0])
    ensures CaesarShift(key, stoi).Shift?
    ensures Decrypt(text, key) == CaesarBy(text, CaesarShift(key, stoi).places)
  {
    OneLetterVigenere(text, key, 0);
  }

  // ---------- letters of a text ----------

  /** The letters of a text, as places in the alphabet and in order. */
  function Letters(text: string): (ls: seq<nat>)
    ensures |ls| <= |text|
    ensures forall j :: 0 <= j < |ls| ==> ls[j] < 26
  {
    if text == "" then []
    else if IsAlpha(text[0]) then [Value(text[0])] + Letters(text[1..])
    else Letters(text[1..])
  }

  lemma {:induction false} LettersConcat(a: string, b: string)
    ensures Letters(a + b) == Letters(a) + Letters(b)
  {
    if a == "" {
      assert a + b == b;
    } else {
      assert (a + b)[1..] == a[1..] + b;
      LettersConcat(a[1..], b);
    }
  }

  lemma LettersSnoc(text: string, c: char)
    ensures Letters(text + [c]) == if IsAlpha(c) then Letters(text) + [Value(c)] else Letters(text)
  {
    LettersConcat(text, [c]);
    assert [c][1..] == "";
  }

  lemma {:induction false} DecryptConcat(a: string, b: string, key: string, used: nat)
    requires key != ""
    ensures DecryptFrom(a + b, key, used) == DecryptFrom(a, key, used) + DecryptFrom(b, key, used + |Letters(a)|)
  {
    if a == "" {
      assert a + b == b;
    } else {
      var next := if IsAlpha(a[0]) then used + 1 else used;
      DecryptConcat(a[1..], b, key, next);
      assert next + |Letters(a[1..])| == used + |Letters(a)|;
      assert a + b == [a[0]] + (a[1..] + b) && a == [a[0]] + a[1..];
      SameHead(a[0], a[1..], a[1..] + b, key, used, next);
    }
  }

  /** Two texts that begin with the same character begin with the same plain character. */
  lemma SameHead(c: char, x: string, y: string, key: string, used: nat, next: nat)
    requires key != "" && next == if IsAlpha(c) then used + 1 else used
    ensures exists p: char ::
              && DecryptFrom([c] + x, key, used) == [p] + DecryptFrom(x, key, next)
              && DecryptFrom([c] + y, key, used) == [p] + DecryptFrom(y, key, next)
  {
    var p := if IsAlpha(c) then Rotate(c, KeyShift(key[used % |key|])) else c;
    assert DecryptFrom([c] + x, key, used) == [p] + DecryptFrom(x, key, next);
  }

  /** The letters of a decryption are those of its rest, after the first character's own. */
  lemma LettersOfDecryptCons(text: string, key: string, used: nat)
    requires key != "" && IsKey(key) && text != ""
    ensures Letters(DecryptFrom(text, key, used))
         == if IsAlpha(text[0]) then
              [PlainValue(Value(text[0]), key, used)] + Letters(DecryptFrom(text[1..], key, used + 1))
            else Letters(DecryptFrom(text[1..], key, used))
  {
  }

  /** A letter moved back by the key letter in turn. */
  function PlainValue(v: nat, key: string, used: nat): (p: nat)
    requires key != "" && IsKey(key)
    ensures p < 26
  {
    (v - Digit(key[used % |key|]) + 26) % 26
  }

  lemma {:induction false} DecryptKeepsLetterCount(text: string, key: string, used: nat)
    requires key != "" && IsKey(key)
    ensures |Letters(DecryptFrom(text, key, used))| == |Letters(text)|
  {
    if text == "" {
    } else {
      LettersOfDecryptCons(text, key, used);
      DecryptKeepsLetterCount(text[1..], key, if IsAlpha(text[0]) then used + 1 else used);
    }
  }

  /** Letter `j` of the plain text is letter `j` of the cipher text moved back by the key letter in turn. */
  lemma {:induction false} LettersOfDecrypt(text: string, key: string, used: nat, j: nat)
    requires key != "" && IsKey(key)
    requires j < |Letters(text)|
    ensures |Letters(DecryptFrom(text, key, used))| == |Letters(text)|
    ensures Letters(DecryptFrom(text, key, used))[j] == PlainValue(Letters(text)[j], key, used + j)
  {
    DecryptKeepsLetterCount(text, key, used);
    LettersOfDecryptCons(text, key, used);
    var ls, ms := Letters(text), Letters(DecryptFrom(text, key, used));
    if !IsAlpha(text[0]) {
      LettersOfDecrypt(text[1..], key, used, j);
    } else if j > 0 {
      LettersOfDecrypt(text[1..], key, used + 1, j - 1);
      assert used + 1 + (j - 1) == used + j;
      assert ls[j] == Letters(text[1..])[j - 1] && ms[j] == Letters(DecryptFrom(text[1..], key, used + 1))[j - 1];
    }
  }

  // ---------- decryption algebra ----------

  /** The letterwise negation of a key. */
  function Negated(key: string): (neg: string)
    requires IsKey(key)
    ensures |neg| == |key| && IsKey(neg)
  {
    seq(|key|, i requires 0 <= i < |key| => Letter((26 - Digit(key[i])) % 26))
  }

  lemma RotateBack(c: char, d: nat)
    requires IsAlpha(c) && d < 26
    ensures IsAlpha(Rotate(c, d))
    ensures Rotate(Rotate(c, d), (26 - d) % 26) == c
  {
  }

  lemma KeyShiftIsDigit(k: char)
    requires IsUpper(k)
    ensures KeyShift(k) == Digit(k)
  {
  }

  lemma LetterUndone(c: char, key: string, i: nat)
    requires IsAlpha(c) && IsKey(key) && i < |key|
    ensures var p := Rotate(c, KeyShift(key[i])); IsAlpha(p) && Rotate(p, KeyShift(Negated(key)[i])) == c
  {
    RotateBack(c, Digit(key[i]));
    KeyShiftIsDigit(key[i]);
    KeyShiftIsDigit(Negated(key)[i]);
  }

  lemma {:induction false} DecryptUndone(text: string, key: string, used: nat)
    requires key != "" && IsKey(key)
    ensures DecryptFrom(DecryptFrom(text, key, used), Negated(key), used) == text
  {
    if text == "" {
    } else {
      var rest := text[1..];
      if IsAlpha(text[0]) {
        LetterUndone(text[0], key, used % |key|);
        var plain := DecryptFrom(text, key, used);
        assert plain[1..] == DecryptFrom(rest, key, used + 1);
        DecryptUndone(rest, key, used + 1);
      } else {
        assert DecryptFrom(text, key, used)[1..] == DecryptFrom(rest, key, used);
        DecryptUndone(rest, key, used);
      }
      assert text == [text[0]] + rest;
    }
  }

  /** Decrypting with a key and then with its letterwise negation restores the text. */
  lemma {:induction false} DecryptThenNegatedRestores(text: string, key: string)
    requires IsKey(key)
    ensures Decrypt(Decrypt(text, key), Negated(key)) == text
    ensures Decrypt(Decrypt(text, Negated(key)), key) == text
  {
    if key == "" {
    } else {
      DecryptUndone(text, key, 0);
      DecryptUndone(text, Negated(key), 0);
      NegatedTwice(key);
    }
  }

  lemma {:induction false} NegatedTwice(key: string)
    requires IsKey(key)
    ensures Negated(Negated(key)) == key
  {
  }

  // ---------- cropping ----------

  /** `p` is `text` cut right after its CROP_LETTERS-th letter, or all of it when it has fewer letters. */
  ghost predicate IsCrop(p: string, text: string) {
    && p <= text
    && (|Letters(p)| < CROP_LETTERS ==> p == text)
    && (|Letters(p)| >= CROP_LETTERS ==>
          |Letters(p)| == CROP_LETTERS && p != "" && |Letters(p[..|p| - 1])| == CROP_LETTERS - 1)
  }

  method CropText(text: string) returns (cropped: string)
    ensures IsCrop(cropped, text)
  {
    var counter := 0;
    cropped := "";
    for i := 0 to |text|
      invariant cropped == text[..i]
      invariant counter == |Letters(cropped)| < CROP_LETTERS
    {
      assert text[..i + 1] == text[..i] + [text[i]];
      LettersSnoc(text[..i], text[i]);
      cropped := cropped + [text[i]];
      if IsAlpha(text[i]) {
        counter := counter + 1;
        if counter == CROP_LETTERS {
          assert cropped[..|cropped| - 1] == text[..i];
          return;
        }
      }
    }
  }

  /** The crop has a thousand letters, or all that there are. */
  lemma CropLetterCount(p: string, text: string)
    requires IsCrop(p, text)
    ensures |Letters(p)| == if |Letters(text)| < 1000 then |Letters(text)| else 1000
  {
    assert text == p + text[|p|..];
    LettersConcat(p, text[|p|..]);
  }

  /** The contract of CropText leaves exactly one result. */
  lemma CropIsUnique(p: string, q: string, text: string)
    requires IsCrop(p, text) && IsCrop(q, text)
    ensures p == q
  {
    if |p| < |q| {
      CropNotLonger(p, q, text);
    } else if |q| < |p| {
      CropNotLonger(q, p, text);
    } else {
      assert p == text[..|p|] && q == text[..|q|];
    }
  }

  lemma CropNotLonger(p: string, q: string, text: string)
    requires IsCrop(p, text) && IsCrop(q, text)
    ensures |q| <= |p|
  {
    if |p| < |q| {
      var front := q[..|q| - 1];
      var between := front[|p|..];
      assert front == p + between;
      LettersConcat(p, between);
      assert q == front + [q[|q| - 1]];
      LettersSnoc(front, q[|q| - 1]);
    }
  }

  /** Cropping commutes with decryption: the plain text of the crop is the start of the full plain text. */
  lemma DecryptOfCropIsPrefix(text: string, cropped: string, key: string)
    requires IsCrop(cropped, text)
    ensures Decrypt(cropped, key) <= Decrypt(text, key)
    ensures Letters(cropped) <= Letters(text)
  {
    var rest := text[|cropped|..];
    assert text == cropped + rest;
    LettersConcat(cropped, rest);
    if key != "" {
      DecryptConcat(cropped, rest, key, 0);
    }
  }
}
