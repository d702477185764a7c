/** The one text format the application parses: the bulk-item box, where
    items are separated by `*`. addBulkItems runs
    `text.split("*").map(item => item.trim()).filter(item => item.length > 0)`
    (src/App.tsx:250-253); this module is that pipeline. */
module BulkText {

  /** The characters String.prototype.trim removes: ECMAScript WhiteSpace
      (tab, vertical tab, form feed, space, no-break space, the byte-order mark
      and the Unicode space separators) and LineTerminator (LF, CR, U+2028,
      U+2029). */
  predicate IsWhitespace(c: char)
  {
    || ('\U{0009}' <= c <= '\U{000D}') || c == '\U{0020}' || c == '\U{00A0}' || c == '\U{1680}'
    || ('\U{2000}' <= c <= '\U{200A}') || c == '\U{2028}' || c == '\U{2029}' || c == '\U{202F}'
    || c == '\U{205F}' || c == '\U{3000}' || c == '\U{FEFF}'
  }

  predicate AllWhitespace(s: string)
  {
    forall k | 0 <= k < |s| :: IsWhitespace(s[k])
  }

  /** Neither end of `s` is whitespace. */
  predicate IsTrimmed(s: string)
  {
    s == [] || (!IsWhitespace(s[0]) && !IsWhitespace(s[|s| - 1]))
  }

  /** Drops leading whitespace: the result is the suffix of `s` that starts at
      its first non-whitespace character. */
  function TrimStart(s: string): (r: string)
    ensures |r| <= |s| && r == s[|s| - |r|..]
    ensures r == [] || !IsWhitespace(r[0])
    ensures forall k | 0 <= k < |s| - |r| :: IsWhitespace(s[k])
  {
    if s != [] && IsWhitespace(s[0]) then TrimStart(s[1..]) else s
  }

  /** Drops trailing whitespace: the result is the prefix of `s` that ends at
      its last non-whitespace character. */
  function TrimEnd(s: string): (r: string)
    ensures |r| <= |s| && r == s[..|r|]
    ensures r == [] || !IsWhitespace(r[|r| - 1])
    ensures forall k | |r| <= k < |s| :: IsWhitespace(s[k])
  {
    if s != [] && IsWhitespace(s[|s| - 1]) then TrimEnd(s[..|s| - 1]) else s
  }

  /** String.prototype.trim. */
  function Trim(s: string): (r: string)
    ensures IsTrimmed(r)
  {
    var t := TrimStart(s);
    var r := TrimEnd(t);
    assert r != [] ==> !IsWhitespace(r[0]) by {
      if r != [] {
        assert r[0] == t[0];
      }
    }
    r
  }

  /** The trim is empty exactly when the text is all whitespace. */
  lemma TrimBlank(s: string)
    ensures Trim(s) == [] <==> AllWhitespace(s)
  {
    var t := TrimStart(s);
    var r := TrimEnd(t);
    if r == [] {
      assert t == [];
    } else {
      assert t == s[|s| - |t|..];
      assert s[|s| - |t|] == r[0];
    }
  }

  /** Trimming adds no character. */
  lemma TrimWithin(s: string)
    ensures forall c | c in Trim(s) :: c in s
  {
    var t := TrimStart(s);
    assert t == s[|s| - |t|..];
    assert TrimEnd(t) == t[..|TrimEnd(t)|];
  }

  /** A string with no whitespace at either end is its own trim. */
  lemma TrimTrimmed(s: string)
    requires IsTrimmed(s)
    ensures Trim(s) == s
  {
  }

  /** A leading space is trimmed away. */
  lemma TrimLeadingSpace(s: string)
    requires IsTrimmed(s)
    ensures Trim([' '] + s) == s
  {
    assert ([' '] + s)[1..] == s;
    assert TrimStart([' '] + s) == TrimStart(s);
  }

  /** The separator of the bulk-item box. */
  const Separator: char := '*'

  /** String.prototype.split("*"): the pieces between separators, in order;
      there is always one piece more than there are separators, so "" gives
      [""] and "*" gives ["", ""]. */
  function Split(s: string): (r: seq<string>)
    ensures |r| >= 1
    ensures forall k | 0 <= k < |r| :: Separator !in r[k]
  {
    if s == [] then [[]]
    else
      var rest := Split(s[1..]);
      if s[0] == Separator then [[]] + rest
      else [[s[0]] + rest[0]] + rest[1..]
  }

  /** Array.prototype.join("*"), the inverse of Split. */
  function Join(parts: seq<string>): (r: string)
    requires |parts| >= 1
  {
    if |parts| == 1 then parts[0] else parts[0] + [Separator] + Join(parts[1..])
  }

  /** Splitting and joining again gives back the text. */
  lemma {:induction false} JoinSplit(s: string)
    ensures Join(Split(s)) == s
  {
    if s != [] {
      var rest := Split(s[1..]);
      JoinSplit(s[1..]);
      if s[0] == Separator {
        assert Split(s) == [[]] + rest;
        assert Split(s)[1..] == rest;
      } else {
        var r := Split(s);
        assert r == [[s[0]] + rest[0]] + rest[1..];
        if |rest| == 1 {
          assert Join(rest) == rest[0];
        } else {
          assert r[1..] == rest[1..];
          assert Join(rest) == rest[0] + [Separator] + Join(rest[1..]);
        }
      }
    }
  }

  /** Splitting text that starts with a separator-free piece `a` puts `a` in
      front of the first piece. */
  lemma {:induction false} SplitPrefix(a: string, b: string)
    requires Separator !in a
    ensures Split(a + b) == [a + Split(b)[0]] + Split(b)[1..]
  {
    if a != [] {
      assert (a + b)[0] == a[0];
      assert (a + b)[1..] == a[1..] + b;
      SplitPrefix(a[1..], b);
      assert [a[0]] + (a[1..] + Split(b)[0]) == a + Split(b)[0];
    } else {
      var r := Split(b);
      assert a + b == b;
      assert a + r[0] == r[0];
      assert r == [r[0]] + r[1..];
    }
  }

  /** Joining separator-free pieces and splitting again gives back the pieces. */
  lemma {:induction false} SplitJoin(parts: seq<string>)
    requires |parts| >= 1
    requires forall k | 0 <= k < |parts| :: Separator !in parts[k]
    ensures Split(Join(parts)) == parts
  {
    if |parts| == 1 {
      assert parts[0] + [] == parts[0];
      SplitPrefix(parts[0], []);
    } else {
      var tail := Join(parts[1..]);
      SplitJoin(parts[1..]);
      assert Split([Separator] + tail) == [[]] + parts[1..];
      assert Join(parts) == parts[0] + ([Separator] + tail);
      SplitPrefix(parts[0], [Separator] + tail);
      assert parts[0] + [] == parts[0];
      assert parts == [parts[0]] + parts[1..];
    }
  }

  /** The `map(trim)` and `filter(length > 0)` steps, fused. */
  function TrimAndDropEmpty(parts: seq<string>): (r: seq<string>)
    ensures |r| <= |parts|
  {
    if parts == [] then []
    else
      var t := Trim(parts[0]);
      var rest := TrimAndDropEmpty(parts[1..]);
      if t == [] then rest else [t] + rest
  }

  /** Every kept name is non-empty and trimmed. */
  lemma {:induction false} TrimAndDropEmptyClean(parts: seq<string>)
    ensures forall t | t in TrimAndDropEmpty(parts) :: t != [] && IsTrimmed(t)
  {
    if parts != [] {
      TrimAndDropEmptyClean(parts[1..]);
    }
  }

  /** No name is kept exactly when every piece is blank. */
  lemma {:induction false} TrimAndDropEmptyNone(parts: seq<string>)
    ensures TrimAndDropEmpty(parts) == [] <==> forall k | 0 <= k < |parts| :: AllWhitespace(parts[k])
  {
    if parts != [] {
      TrimAndDropEmptyNone(parts[1..]);
      assert forall k | 1 <= k < |parts| :: parts[k] == parts[1..][k - 1];
    }
  }

  /** The trim of every piece is kept unless it is empty. */
  lemma {:induction false} TrimAndDropEmptyKeeps(parts: seq<string>, k: nat)
    requires k < |parts| && Trim(parts[k]) != []
    ensures Trim(parts[k]) in TrimAndDropEmpty(parts)
  {
    var rest := TrimAndDropEmpty(parts[1..]);
    if k == 0 {
      assert TrimAndDropEmpty(parts) == [Trim(parts[0])] + rest;
    } else {
      assert parts[k] == parts[1..][k - 1];
      TrimAndDropEmptyKeeps(parts[1..], k - 1);
      assert TrimAndDropEmpty(parts) == rest || TrimAndDropEmpty(parts) == [Trim(parts[0])] + rest;
    }
  }

  /** Every kept name is the trim of some piece. */
  lemma {:induction false} TrimAndDropEmptyFrom(parts: seq<string>, t: string)
    requires t in TrimAndDropEmpty(parts)
    ensures exists k | 0 <= k < |parts| :: t == Trim(parts[k])
  {
    if t != Trim(parts[0]) {
      TrimAndDropEmptyFrom(parts[1..], t);
      var k :| 0 <= k < |parts[1..]| && t == Trim(parts[1..][k]);
      assert parts[1..][k] == parts[k + 1];
    }
  }

  /** Pieces free of separators give names free of separators. */
  lemma TrimAndDropEmptyNoSeparator(parts: seq<string>)
    requires forall k | 0 <= k < |parts| :: Separator !in parts[k]
    ensures forall t | t in TrimAndDropEmpty(parts) :: Separator !in t
  {
    forall t | t in TrimAndDropEmpty(parts) ensures Separator !in t {
      TrimAndDropEmptyFrom(parts, t);
    }
  }

  /** The pieces are processed one by one, so the names keep the order of
      the pieces they come from. */
  lemma {:induction false} TrimAndDropEmptyAppend(a: seq<string>, b: seq<string>)
    ensures TrimAndDropEmpty(a + b) == TrimAndDropEmpty(a) + TrimAndDropEmpty(b)
  {
    if a != [] {
      assert (a + b)[0] == a[0];
      assert (a + b)[1..] == a[1..] + b;
      TrimAndDropEmptyAppend(a[1..], b);
    } else {
      assert a + b == b;
    }
  }

  /** The item names the bulk box yields for `text`, in text order. */
  function BulkNames(text: string): (r: seq<string>)
    ensures forall k | 0 <= k < |r| :: r[k] != [] && IsTrimmed(r[k]) && Separator !in r[k]
  {
    TrimAndDropEmptyClean(Split(text));
    TrimAndDropEmptyNoSeparator(Split(text));
    assert forall k | 0 <= k < |TrimAndDropEmpty(Split(text))| ::
             TrimAndDropEmpty(Split(text))[k] in TrimAndDropEmpty(Split(text));
    TrimAndDropEmpty(Split(text))
  }

  /** Every character of the joined text is a separator or belongs to a piece. */
  lemma {:induction false} JoinChars(parts: seq<string>)
    requires |parts| >= 1
    ensures (forall c | c in Join(parts) :: IsWhitespace(c) || c == Separator)
        <==> (forall k | 0 <= k < |parts| :: forall c | c in parts[k] :: IsWhitespace(c) || c == Separator)
  {
    if |parts| > 1 {
      JoinChars(parts[1..]);
      var j := Join(parts);
      var tail := Join(parts[1..]);
      assert j == parts[0] + [Separator] + tail;
      assert forall c | c in j :: c in parts[0] || c == Separator || c in tail;
      assert forall k | 1 <= k < |parts| :: parts[k] == parts[1..][k - 1];
      assert forall c | c in tail :: c in j;
      assert forall c | c in parts[0] :: c in j;
    }
  }

  /** The bulk box yields no name exactly when the text holds nothing but
      whitespace and separators: "", "   " and "***" all yield none. */
  lemma BulkNamesEmpty(text: string)
    ensures BulkNames(text) == [] <==>
              forall k | 0 <= k < |text| :: IsWhitespace(text[k]) || text[k] == Separator
  {
    var parts := Split(text);
    JoinSplit(text);
    JoinChars(parts);
    TrimAndDropEmptyNone(parts);
    assert (forall k | 0 <= k < |text| :: IsWhitespace(text[k]) || text[k] == Separator)
       <==> (forall c | c in text :: IsWhitespace(c) || c == Separator);
    assert (forall k | 0 <= k < |parts| :: AllWhitespace(parts[k]))
       <==> (forall k | 0 <= k < |parts| :: forall c | c in parts[k] :: IsWhitespace(c) || c == Separator);
  }

  /** Names that are non-empty, trimmed and free of separators survive a
      trip through the bulk box: joining them with `*` and parsing yields them
      again, in order. */
  lemma {:induction false} BulkNamesJoin(names: seq<string>)
    requires |names| >= 1
    requires forall k | 0 <= k < |names| :: names[k] != [] && IsTrimmed(names[k]) && Separator !in names[k]
    ensures BulkNames(Join(names)) == names
  {
    SplitJoin(names);
    CleanNames(names);
  }

  /** Joined names whose first name starts with a non-blank character are
      not blank. */
  lemma JoinNotBlank(names: seq<string>)
    requires |names| >= 1 && names[0] != [] && !IsWhitespace(names[0][0])
    ensures !AllWhitespace(Join(names))
  {
    var text := Join(names);
    if |names| > 1 {
      assert text == names[0] + ([Separator] + Join(names[1..]));
    }
    assert text[0] == names[0][0];
  }

  /** Trimming and dropping empty pieces leaves clean names as they are. */
  lemma {:induction false} CleanNames(names: seq<string>)
    requires forall k | 0 <= k < |names| :: names[k] != [] && IsTrimmed(names[k])
    ensures TrimAndDropEmpty(names) == names
  {
    if names != [] {
      var rest := names[1..];
      assert names == [names[0]] + rest;
      assert forall k | 0 <= k < |rest| :: rest[k] == names[k + 1];
      TrimTrimmed(names[0]);
      CleanNames(rest);
    }
  }
}
