/** The strings that name references: alias, "::", repository name and, for a tag, ":" and the tag. */
module ReferenceKeys {

  predicate IsLower(c: char) {
    'a' <= c <= 'z'
  }

  predicate IsDigit(c: char) {
    '0' <= c <= '9'
  }

  /** ^[a-z]([a-z0-9_-]*[a-z0-9])?$ and at most 63 characters. */
  predicate IsValidAlias(name: string) {
    && 0 < |name| <= 63
    && IsLower(name[0])
    && (IsLower(name[|name| - 1]) || IsDigit(name[|name| - 1]))
    && forall i | 0 <= i < |name| :: IsLower(name[i]) || IsDigit(name[i]) || name[i] == '_' || name[i] == '-'
  }

  /** A letter, any of the characters of an alias, and a letter or digit. */
  predicate IsLongAlias(name: string, first: char, middle: string, last: char) {
    && name == [first] + middle + [last]
    && 'a' <= first <= 'z' && ('a' <= last <= 'z' || '0' <= last <= '9')
    && forall c | c in middle :: 'a' <= c <= 'z' || '0' <= c <= '9' || c in {'_', '-'}
  }

  /** Valid aliases are those of the pattern, one letter or a long alias, that are not too long. */
  lemma AliasesMatchThePattern(name: string)
    ensures IsValidAlias(name) <==>
            && |name| <= 63
            && ((|name| == 1 && 'a' <= name[0] <= 'z') || exists first, middle, last :: IsLongAlias(name, first, middle, last))
  {
    if IsValidAlias(name) && |name| >= 2 {
      var middle := name[1..|name| - 1];
      assert name == [name[0]] + middle + [name[|name| - 1]];
      forall c | c in middle ensures 'a' <= c <= 'z' || '0' <= c <= '9' || c in {'_', '-'} {
        var i :| 0 <= i < |middle| && middle[i] == c;
        assert name[i + 1] == c;
      }
      assert IsLongAlias(name, name[0], middle, name[|name| - 1]);
    }
    if first, middle, last :| IsLongAlias(name, first, middle, last) {
      assert forall i | 1 <= i < |name| - 1 :: name[i] == middle[i - 1] && middle[i - 1] in middle;
    }
  }

  predicate NoColon(s: string) {
    forall i | 0 <= i < |s| :: s[i] != ':'
  }

  function TagName(name: string, tag: string): string {
    name + ":" + tag
  }

  function KeyString(alias: string, name: string): string {
    alias + "::" + name
  }

  /** A prefix without colons is determined by the string that starts with it and a colon. */
  lemma FirstColon(a: string, x: string, b: string, y: string)
    requires NoColon(a) && NoColon(b)
    requires a + ":" + x == b + ":" + y
    ensures a == b && x == y
  {
    var s := a + ":" + x;
    assert s == b + ":" + y;
    assert s[|a|] == ':' && s[|b|] == ':';
    assert |a| == |b|;
    assert a == s[..|a|] && b == s[..|b|];
    assert x == s[|a| + 1..] && y == s[|b| + 1..];
  }

  lemma KeyStringInjective(a: string, m: string, b: string, n: string)
    requires IsValidAlias(a) && IsValidAlias(b)
    ensures KeyString(a, m) == KeyString(b, n) <==> a == b && m == n
  {
    assert NoColon(a) && NoColon(b);
    assert KeyString(a, m) == a + ":" + (":" + m) && KeyString(b, n) == b + ":" + (":" + n);
    if KeyString(a, m) == KeyString(b, n) {
      FirstColon(a, ":" + m, b, ":" + n);
      assert m == (":" + m)[1..] && n == (":" + n)[1..];
    }
  }

  /** For valid aliases and colon-free repository names, tag keys are injective and never repository keys. */
  lemma ReferenceKeysAreInjective(a: string, m: string, t: string, b: string, n: string, u: string)
    requires IsValidAlias(a) && IsValidAlias(b) && NoColon(m) && NoColon(n)
    ensures KeyString(a, TagName(m, t)) == KeyString(b, TagName(n, u)) <==> a == b && m == n && t == u
    ensures KeyString(a, m) == KeyString(b, n) <==> a == b && m == n
    ensures KeyString(a, TagName(m, t)) != KeyString(b, n)
  {
    KeyStringInjective(a, TagName(m, t), b, TagName(n, u));
    KeyStringInjective(a, m, b, n);
    KeyStringInjective(a, TagName(m, t), b, n);
    if TagName(m, t) == TagName(n, u) {
      FirstColon(m, t, n, u);
    }
    assert TagName(m, t)[|m|] == ':';
  }

  /** The repository key of `n` is also some tag's key exactly when `n` holds a colon. */
  lemma RepositoryKeyIsATagKey(a: string, n: string)
    requires IsValidAlias(a)
    ensures (exists m, t :: NoColon(m) && KeyString(a, TagName(m, t)) == KeyString(a, n)) <==> !NoColon(n)
  {
    if !NoColon(n) {
      var i := ColonIndex(n, 0);
      assert n == TagName(n[..i], n[i + 1..]);
      assert NoColon(n[..i]) && KeyString(a, TagName(n[..i], n[i + 1..])) == KeyString(a, n);
    }
    forall m, t | NoColon(m) && NoColon(n) ensures KeyString(a, TagName(m, t)) != KeyString(a, n) {
      ReferenceKeysAreInjective(a, m, t, a, n, "");
    }
  }

  /** strings.Index(s, ":") from `from` on, when there is one. */
  function ColonIndex(s: string, from: nat): (i: nat)
    requires from <= |s| && NoColon(s[..from]) && !NoColon(s)
    ensures i < |s| && s[i] == ':' && NoColon(s[..i])
    decreases |s| - from
  {
    assert s[..|s|] == s;
    if s[from] == ':' then from
    else
      assert s[..from + 1] == s[..from] + [s[from]];
      ColonIndex(s, from + 1)
  }
}
