/** Which keys are secret, and what becomes of their values. */
module SecretKeys {
  import opened Redact

  /** The same letter in either case, or the same character. */
  predicate SameLetter(a: char, b: char) {
    a == b
    || ('a' <= a <= 'z' && b == a - 'a' + 'A')
    || ('a' <= b <= 'z' && a == b - 'a' + 'A')
  }

  predicate SameLetters(s: string, t: string) {
    |s| == |t| && forall i :: 0 <= i < |s| ==> SameLetter(s[i], t[i])
  }

  /** The alternatives of the pattern; its others contain one of these. */
  predicate IsSecretWord(word: string) {
    word == "KEY" || word == "SECRET" || word == "TOKEN" || word == "PASSWORD" || word == "PASSWD" || word == "PRIVATE"
    || word == "AUTH" || word == "CREDENTIAL" || word == "COOKIE" || word == "SESSION" || word == "FINGERPRINT"
    || word == "VERIFIER"
  }

  lemma UpperIgnoresCase(s: string, t: string)
    ensures Upper(s) == Upper(t) <==> SameLetters(s, t)
  {
    if Upper(s) == Upper(t) {
      forall i | 0 <= i < |s| ensures SameLetter(s[i], t[i]) { assert Upper(s)[i] == Upper(t)[i]; }
    }
  }

  /** Case does not matter. */
  lemma CaseDoesNotMatter(s: string, t: string)
    requires SameLetters(s, t)
    ensures IsSecret(s) <==> IsSecret(t)
  {
    UpperIgnoresCase(s, t);
  }

  lemma ContainsShape(s: string, word: string)
    ensures Contains(s, word) <==> exists a, b :: s == a + word + b
  {
    if Contains(s, word) {
      var i :| 0 <= i <= |s| && OccursAt(s, word, i);
      assert s == s[..i] + word + s[i + |word|..];
    }
    if exists a, b :: s == a + word + b {
      var a, b :| s == a + word + b;
      assert s[|a|..|a| + |word|] == word;
      assert OccursAt(s, word, |a|);
    }
  }

  lemma ContainsPart(s: string, word: string, a: string, part: string, b: string)
    requires Contains(s, word) && word == a + part + b
    ensures Contains(s, part)
  {
    ContainsShape(s, word);
    var x, y :| s == x + word + y;
    assert s == (x + a) + part + (b + y);
    ContainsShape(s, part);
  }

  lemma UpperOfParts(a: string, word: string, b: string)
    ensures Upper(a + word + b) == Upper(a) + Upper(word) + Upper(b)
  {
  }

  predicate NoLowerCase(word: string) {
    forall i :: 0 <= i < |word| ==> !('a' <= word[i] <= 'z')
  }

  lemma UpperFixes(word: string)
    requires NoLowerCase(word)
    ensures Upper(word) == word
  {
  }

  lemma WordIsListed(word: string)
    requires IsSecretWord(word)
    ensures word in SECRET_WORDS
  {
    if
    case word == "KEY" => assert SECRET_WORDS[0] == word;
    case word == "SECRET" => assert SECRET_WORDS[1] == word;
    case word == "TOKEN" => assert SECRET_WORDS[2] == word;
    case word == "PASSWORD" => assert SECRET_WORDS[3] == word;
    case word == "PASSWD" => assert SECRET_WORDS[4] == word;
    case word == "PRIVATE" => assert SECRET_WORDS[5] == word;
    case word == "AUTH" => assert SECRET_WORDS[7] == word;
    case word == "CREDENTIAL" => assert SECRET_WORDS[8] == word;
    case word == "COOKIE" => assert SECRET_WORDS[9] == word;
    case word == "SESSION" => assert SECRET_WORDS[10] == word;
    case word == "FINGERPRINT" => assert SECRET_WORDS[13] == word;
    case word == "VERIFIER" => assert SECRET_WORDS[14] == word;
  }

  lemma ShortWordsAreUpper()
    ensures NoLowerCase("KEY") && NoLowerCase("SECRET") && NoLowerCase("TOKEN")
    ensures NoLowerCase("PASSWD") && NoLowerCase("AUTH") && NoLowerCase("COOKIE")
  {
  }

  lemma LongWordsAreUpper()
    ensures NoLowerCase("PASSWORD") && NoLowerCase("PRIVATE") && NoLowerCase("CREDENTIAL")
    ensures NoLowerCase("SESSION") && NoLowerCase("FINGERPRINT") && NoLowerCase("VERIFIER")
  {
  }

  lemma WordIsUpper(word: string)
    requires IsSecretWord(word)
    ensures word in SECRET_WORDS && Upper(word) == word
  {
    WordIsListed(word);
    ShortWordsAreUpper();
    LongWordsAreUpper();
    UpperFixes(word);
  }

  /** Every word has a letter that `__proto__` does not. */
  lemma Telltale(word: string) returns (k: nat)
    requires IsSecretWord(word)
    ensures k < |word| && 'A' <= word[k] <= 'Z' && word[k] != 'P' && word[k] != 'R' && word[k] != 'O' && word[k] != 'T'
  {
    if word == "TOKEN" || word == "PRIVATE" {
      k := 2;
    } else if word == "PASSWORD" || word == "PASSWD" {
      k := 1;
    } else {
      k := 0;
    }
  }

  /** Some cased form of a secret word, between any two texts. */
  predicate Around(key: string, a: string, cased: string, b: string, word: string) {
    IsSecretWord(word) && SameLetters(cased, word) && key == a + cased + b
  }

  lemma AroundIsSecret(key: string, a: string, cased: string, b: string, word: string)
    requires Around(key, a, cased, b, word)
    ensures IsSecret(key)
  {
    WordIsUpper(word);
    UpperIgnoresCase(cased, word);
    UpperOfParts(a, cased, b);
    assert Upper(key) == Upper(a) + word + Upper(b);
    ContainsShape(Upper(key), word);
  }

  /** Every alternative of the pattern contains one of the twelve words. */
  lemma ShorterWord(s: string, w: string) returns (word: string)
    requires w in SECRET_WORDS && Contains(s, w)
    ensures IsSecretWord(word) && Contains(s, word)
  {
    if w == "AUTHORIZATION" {
      assert w == "" + "AUTH" + "ORIZATION";
      ContainsPart(s, w, "", "AUTH", "ORIZATION");
      word := "AUTH";
    } else if w == "API_KEY" {
      assert w == "API_" + "KEY" + "";
      ContainsPart(s, w, "API_", "KEY", "");
      word := "KEY";
    } else if w == "API_-KEY" {
      assert w == "API_-" + "KEY" + "";
      ContainsPart(s, w, "API_-", "KEY", "");
      word := "KEY";
    } else {
      word := w;
    }
  }

  lemma UpperOfSlice(s: string, i: nat, j: nat)
    requires i <= j <= |s|
    ensures Upper(s[i..j]) == Upper(s)[i..j]
  {
  }

  lemma FoundWord(key: string, word: string, i: nat) returns (a: string, cased: string, b: string)
    requires IsSecretWord(word) && OccursAt(Upper(key), word, i)
    ensures Around(key, a, cased, b, word)
  {
    var j := i + |word|;
    a, cased, b := key[..i], key[i..j], key[j..];
    WordIsUpper(word);
    UpperOfSlice(key, i, j);
    UpperIgnoresCase(cased, word);
    assert key == a + cased + b;
  }

  /**
   * A key is secret exactly if it contains, in any casing, one of KEY, SECRET,
   * TOKEN, PASSWORD, PASSWD, PRIVATE, AUTH, CREDENTIAL, COOKIE, SESSION,
   * FINGERPRINT and VERIFIER.
   */
  lemma SecretIff(key: string)
    ensures IsSecret(key) <==> exists a, cased, b, word :: Around(key, a, cased, b, word)
  {
    if IsSecret(key) {
      var w :| w in SECRET_WORDS && Contains(Upper(key), w);
      var word := ShorterWord(Upper(key), w);
      var i :| 0 <= i <= |Upper(key)| && OccursAt(Upper(key), word, i);
      var a, cased, b := FoundWord(key, word, i);
    }
    if exists a, cased, b, word :: Around(key, a, cased, b, word) {
      var a, cased, b, word :| Around(key, a, cased, b, word);
      AroundIsSecret(key, a, cased, b, word);
    }
  }

  lemma ProtoIsNotSecret()
    ensures !IsSecret(PROTO)
  {
    SecretIff(PROTO);
    forall a, cased, b, word | IsSecretWord(word) && SameLetters(cased, word) ensures PROTO != a + cased + b {
      ProtoHasNone(a, cased, b, word);
    }
  }

  lemma ProtoHasNone(a: string, cased: string, b: string, word: string)
    requires IsSecretWord(word) && SameLetters(cased, word)
    ensures PROTO != a + cased + b
  {
    var k := Telltale(word);
    var key := a + cased + b;
    assert key[|a| + k] == cased[k] && SameLetter(cased[k], word[k]);
  }

  // ---------------------------------------------------------------- their values

  lemma {:induction false} EntriesJoin(xs: seq<Entry>, ys: seq<Entry>, depth: nat)
    ensures RedactedEntries(xs + ys, depth) == RedactedEntries(xs, depth) + RedactedEntries(ys, depth)
  {
    if xs == [] {
      assert xs + ys == ys;
    } else {
      assert (xs + ys)[1..] == xs[1..] + ys;
      EntriesJoin(xs[1..], ys, depth);
    }
  }

  lemma SecretEntry(before: seq<Entry>, e: Entry, after: seq<Entry>, depth: nat)
    requires IsSecret(e.key)
    ensures RedactedEntries(before + [e] + after, depth)
            == RedactedEntries(before, depth) + [Entry(e.key, Prim("[REDACTED]"))] + RedactedEntries(after, depth)
  {
    ProtoIsNotSecret();
    EntriesSnoc(before, e, depth);
    EntriesJoin(before + [e], after, depth);
  }

  /**
   * Wherever it stands in an object at depth 0 to 6, the value of a key that
   * contains such a word in any casing is replaced, and has no influence on the
   * output.
   */
  lemma SecretValueIsHidden(before: seq<Entry>, after: seq<Entry>, a: string, cased: string, b: string, word: string,
                            v: Value, other: Value, depth: nat)
    requires IsSecretWord(word) && SameLetters(cased, word) && depth <= 6
    ensures var out := Redacted(Obj(before + [Entry(a + cased + b, v)] + after), depth);
            && out.Obj?
            && out.entries == RedactedEntries(before, depth + 1) + [Entry(a + cased + b, Prim("[REDACTED]"))]
                              + RedactedEntries(after, depth + 1)
            && out == Redacted(Obj(before + [Entry(a + cased + b, other)] + after), depth)
  {
    var key := a + cased + b;
    AroundIsSecret(key, a, cased, b, word);
    SecretEntry(before, Entry(key, v), after, depth + 1);
    SecretEntry(before, Entry(key, other), after, depth + 1);
  }

  /** For instance, whatever a password is. */
  lemma PasswordIsHidden(v: Value)
    ensures Redacted(Obj([Entry("password", v)]), 0) == Obj([Entry("password", Prim("[REDACTED]"))])
  {
    assert SameLetters("password", "PASSWORD");
    assert "" + "password" + "" == "password";
    SecretValueIsHidden([], [], "", "password", "", "PASSWORD", v, v, 0);
    assert [] + [Entry("password", v)] + [] == [Entry("password", v)];
  }

  /** An own property `__proto__` is dropped, whatever its value, and no other. */
  lemma OnlyProtoIsDropped(key: string, v: Value, depth: nat)
    requires depth <= 6
    ensures var out := Redacted(Obj([Entry(key, v)]), depth);
            && out.Obj?
            && if key == "__proto__" then out.entries == [] else |out.entries| == 1 && out.entries[0].key == key
  {
    EntriesSnoc([], Entry(key, v), depth + 1);
    assert [] + [Entry(key, v)] == [Entry(key, v)];
  }
}
