/** Recognising a unique-index violation in a database error. */
module DuplicateKey {
  import opened Common

  const E11000 := 11000

  /** What the driver throws; older drivers have no `keyPattern`. */
  datatype DbError = DbError(code: int, message: Option<string>, keyPattern: Option<set<string>>)

  predicate IsWordChar(c: char) {
    'a' <= c <= 'z' || 'A' <= c <= 'Z' || '0' <= c <= '9' || c == '_'
  }

  /** The regular expression `\bFIELD(?:_|\b)` matches at position `i`; the field is a plain word. */
  predicate NamedAt(message: string, field: string, i: nat) {
    && i + |field| <= |message|
    && message[i..i + |field|] == field
    && (i == 0 || !IsWordChar(message[i - 1]))
    && (i + |field| == |message| || message[i + |field|] == '_' || !IsWordChar(message[i + |field|]))
  }

  predicate Named(message: string, field: string) {
    exists i :: 0 <= i <= |message| && NamedAt(message, field, i)
  }

  function IsDuplicateKeyError(e: DbError, field: string): bool {
    && e.code == E11000
    && (field == ""
        || (e.keyPattern.Some? && field in e.keyPattern.value)
        || (e.message.Some? && Named(e.message.value, field)))
  }

  // ---------------------------------------------------------------- what a message names

  /** A word character, by its code: a digit, a capital, `_` or a small letter, and nothing else. */
  lemma WordCharsAre(c: char)
    ensures IsWordChar(c) <==>
      var code := c as int; 48 <= code <= 57 || 65 <= code <= 90 || code == 95 || 97 <= code <= 122
  {}

  predicate IsWord(s: string) {
    s != "" && forall k :: 0 <= k < |s| ==> IsWordChar(s[k])
  }

  /** Two texts meet at something that is not a word character. */
  predicate Apart(a: string, b: string) {
    (a != "" ==> !IsWordChar(a[|a| - 1])) || (b != "" ==> !IsWordChar(b[0]))
  }

  lemma NamedInLeft(a: string, b: string, field: string, i: nat)
    requires IsWord(field) && Apart(a, b) && i + |field| <= |a|
    ensures NamedAt(a + b, field, i) <==> NamedAt(a, field, i)
  {
    assert (a + b)[i..i + |field|] == a[i..i + |field|];
    if a[i..i + |field|] == field && i + |field| == |a| { assert field[|field| - 1] == a[|a| - 1]; }
  }

  lemma NamedInRight(a: string, b: string, field: string, i: nat)
    requires IsWord(field) && Apart(a, b) && i + |field| <= |b|
    ensures NamedAt(a + b, field, |a| + i) <==> NamedAt(b, field, i)
  {
    assert (a + b)[|a| + i..|a| + i + |field|] == b[i..i + |field|];
    if b[i..i + |field|] == field && i == 0 { assert field[0] == b[0]; }
  }

  lemma NotAcross(a: string, b: string, field: string, i: nat)
    requires IsWord(field) && Apart(a, b) && i < |a| < i + |field|
    ensures !NamedAt(a + b, field, i)
  {
    if b != "" && i + |field| <= |a + b| {
      var here := (a + b)[i..i + |field|];
      assert here[|a| - 1 - i] == a[|a| - 1] && here[|a| - i] == b[0];
      assert here != field;
    }
  }

  /** Where no word crosses the seam, a message names a field exactly if one of its halves does. */
  lemma NamedSplit(a: string, b: string, field: string)
    requires IsWord(field) && Apart(a, b)
    ensures Named(a + b, field) <==> Named(a, field) || Named(b, field)
  {
    var m := a + b;
    if Named(m, field) {
      var i :| 0 <= i <= |m| && NamedAt(m, field, i);
      if i + |field| <= |a| { NamedInLeft(a, b, field, i); }
      else if i < |a| { NotAcross(a, b, field, i); }
      else { NamedInRight(a, b, field, i - |a|); }
    }
    if Named(a, field) {
      var i :| 0 <= i <= |a| && NamedAt(a, field, i);
      NamedInLeft(a, b, field, i);
    }
    if Named(b, field) {
      var i :| 0 <= i <= |b| && NamedAt(b, field, i);
      NamedInRight(a, b, field, i);
    }
  }

  /** A single word names a field exactly if it is the field, or the field followed by `_`. */
  lemma NamedWord(word: string, field: string)
    requires IsWord(field) && IsWord(word)
    ensures Named(word, field) <==> word == field || field + "_" <= word
  {
    if Named(word, field) {
      var i :| 0 <= i <= |word| && NamedAt(word, field, i);
      if i > 0 { assert IsWordChar(word[i - 1]); }
      assert word[..|field|] == field;
      if |word| > |field| { assert IsWordChar(word[|field|]); }
    }
    if word == field || field + "_" <= word {
      assert word[0..|field|] == field;
      assert |word| > |field| ==> word[|field|] == (field + "_")[|field|];
      assert NamedAt(word, field, 0);
    }
  }

  /**
   * A word in a message: what `before` and `after` do not name, the message
   * names exactly through that word.
   */
  lemma NamedThroughWord(before: string, word: string, after: string, field: string)
    requires IsWord(field) && IsWord(word) && Apart(before, word) && Apart(word, after)
    ensures Named(before + word + after, field)
            <==> Named(before, field) || Named(after, field) || word == field || field + "_" <= word
  {
    NamedWord(word, field);
    NamedSplit(before, word, field);
    var m := before + word;
    assert m[|m| - 1] == word[|word| - 1];
    NamedSplit(m, after, field);
  }

  predicate Lacks(text: string, c: char) {
    forall i :: 0 <= i < |text| ==> text[i] != c
  }

  /** A text without some letter of the field does not name it. */
  lemma MissingLetter(text: string, field: string, k: nat)
    requires k < |field| && Lacks(text, field[k])
    ensures !Named(text, field)
  {
    forall i: nat | i + |field| <= |text| ensures !NamedAt(text, field, i) {
      assert text[i..i + |field|][k] == text[i + k];
    }
  }

  /** Only error 11000 counts; without a field every such error does. */
  lemma OnlyThatCode(e: DbError, field: string)
    ensures IsDuplicateKeyError(e, field) ==> e.code == 11000
    ensures e.code == 11000 && field == "" ==> IsDuplicateKeyError(e, field)
  {
  }

  // ---------------------------------------------------------------- driver messages

  function MessageStart(collection: string): string {
    ("E11000 duplicate " + "key error ") + ("collection: " + collection)
  }

  /** What a message says before it names the index, for a collection without an `m` in its name. */
  lemma StartLacksM(collection: string)
    requires Lacks(collection, 'm')
    ensures Lacks(MessageStart(collection), 'm')
  {
    assert Lacks("E11000 duplicate ", 'm') && Lacks("key error ", 'm') && Lacks("collection: ", 'm');
    assert Lacks("E11000 duplicate " + "key error ", 'm') && Lacks("collection: " + collection, 'm');
  }

  /** An index called `<field>_<suffix>` is recognised by name alone. */
  lemma IndexNameIsRecognised(before: string, field: string, suffix: string)
    requires before == "" || !IsWordChar(before[|before| - 1])
    ensures IsDuplicateKeyError(DbError(E11000, Some(before + field + "_" + suffix), None), field)
  {
    var m := before + field + "_" + suffix;
    assert m[|before|..|before| + |field|] == field;
    assert NamedAt(m, field, |before|);
  }

  /** A longer word that merely starts with the field adds nothing to what the rest of the message names. */
  lemma LongerNameIsNot(before: string, field: string, rest: string, after: string)
    requires IsWord(field) && IsWord(rest) && rest[0] != '_'
    requires Apart(before, field + rest) && Apart(field + rest, after)
    ensures IsDuplicateKeyError(DbError(E11000, Some(before + (field + rest) + after), None), field)
            <==> Named(before, field) || Named(after, field)
  {
    var word := field + rest;
    assert word[|field|] == rest[0];
    NamedThroughWord(before, word, after, field);
  }

  /**
   * The index on the address is called `users_email_unique`, where `email`
   * follows a `_`: without `keyPattern` its violation is recognised exactly if
   * the rest of the message happens to name `email`.
   */
  lemma EmailIndexByNameIff(before: string, after: string)
    requires Apart(before, "users_email_unique") && Apart("users_email_unique", after)
    ensures IsDuplicateKeyError(DbError(E11000, Some(before + "users_email_unique" + after), None), "email")
            <==> Named(before, "email") || Named(after, "email")
  {
    var word, field := "users_email_unique", "email";
    assert word[0] == 'u' && (field + "_")[0] == 'e';
    NamedThroughWord(before, word, after, field);
  }

  /** So the message of a server that does not repeat the field name is not recognised ... */
  lemma EmailIndexMissed(after: string)
    requires Lacks(after, 'm') && (after != "" ==> !IsWordChar(after[0]))
    ensures !IsDuplicateKeyError(DbError(E11000,
            Some(MessageStart("app.users index: ") + "users_email_unique" + after), None), "email")
    ensures !IsDuplicateKeyError(DbError(E11000,
            Some(MessageStart("app.users index: ") + "users_email_unique" + " dup key: { : \"a\" }"), None), "email")
  {
    var before := MessageStart("app.users index: ");
    StartLacksM("app.users index: ");
    MissingLetter(before, "email", 1);
    MissingLetter(after, "email", 1);
    MissingLetter(" dup key: { : \"a\" }", "email", 1);
    EmailIndexByNameIff(before, after);
    EmailIndexByNameIff(before, " dup key: { : \"a\" }");
  }

  /** ... and that of one that does is. */
  lemma EmailIndexRecognised(value: string)
    ensures IsDuplicateKeyError(DbError(E11000,
            Some(MessageStart("app.users index: ") + "users_email_unique" + (" dup key: { email: \"" + value)),
                None), "email")
  {
    var after := " dup key: { email: \"" + value;
    assert after[12..17] == "email";
    assert NamedAt(after, "email", 12);
    EmailIndexByNameIff(MessageStart("app.users index: "), after);
  }

  /**
   * With a `keyPattern`, the answer is whether the pattern has the field, exactly
   * unless the pattern lacks it and the message, which is consulted then too,
   * names it.
   */
  lemma KeyPatternDecidesIff(e: DbError, field: string)
    requires e.code == E11000 && field != "" && e.keyPattern.Some?
    ensures (IsDuplicateKeyError(e, field) <==> field in e.keyPattern.value)
            <==> field in e.keyPattern.value || e.message.None? || !Named(e.message.value, field)
  {
  }

  /**
   * A violation of the index on `fingerprint`, as the driver words it, is taken
   * for one of `email` exactly if the duplicate value names `email`.
   */
  lemma MessageOverridesKeyPattern(value: string)
    ensures var message := FingerprintStart() + value + "\" }";
            IsDuplicateKeyError(DbError(E11000, Some(message), Some({"fingerprint"})), "email") <==> Named(value,
                "email")
    ensures Named("my email", "email")
  {
    FingerprintStartLacksM();
    MissingLetter(FingerprintStart(), "email", 1);
    MissingLetter("\" }", "email", 1);
    NamedSplit(FingerprintStart(), value, "email");
    NamedSplit(FingerprintStart() + value, "\" }", "email");
    assert "my email"[3..8] == "email";
    assert NamedAt("my email", "email", 3);
  }

  function FingerprintStart(): string {
    MessageStart("app.devices index: " + "fingerprint_1") + (" dup key: { " + "fingerprint: \"")
  }

  lemma FingerprintStartLacksM()
    ensures Lacks(FingerprintStart(), 'm')
    ensures FingerprintStart() != "" && FingerprintStart()[|FingerprintStart()| - 1] == '\"'
  {
    assert Lacks("app.devices index: ", 'm') && Lacks("fingerprint_1", 'm') && Lacks(" dup key: { ", 'm')
        && Lacks("fingerprint: \"", 'm');
    StartLacksM("app.devices index: " + "fingerprint_1");
    assert Lacks(" dup key: { " + "fingerprint: \"", 'm');
  }
}
