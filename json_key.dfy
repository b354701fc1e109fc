/**
 * The JSON text (RFC 8259) of a table key: `JSON.stringify` of an object whose
 * properties are string-valued attributes, and `JSON.parse` of such a text.
 */
module JsonKey {
  import opened Common

  /** An attribute name and its string value. */
  type Attribute = (string, string)

  /** A key object: its properties in the object's own order. */
  type Key = seq<Attribute>

  /** A JavaScript object never has two properties with one name. */
  predicate DistinctNames(k: Key) {
    forall i, j :: 0 <= i < j < |k| ==> k[i].0 != k[j].0
  }

  function Names(k: Key): set<string> {
    set i | 0 <= i < |k| :: k[i].0
  }

  // ---------------------------------------------------------------- printing

  function HexDigit(d: nat): (c: char)
    requires d < 16
  {
    if d < 10 then ('0' as int + d) as char else ('a' as int + d - 10) as char
  }

  /** Characters `JSON.stringify` writes as an escape sequence. */
  predicate NeedsEscape(c: char) {
    c == '"' || c == '\\' || (c as int) < 0x20
  }

  /**
   * `"` and `\` are escaped with a backslash, the five control characters that
   * have a short escape use it, and the other control characters are written as
   * `\u00` and two lower-case hexadecimal digits.
   */
  function EscapeChar(c: char): (e: string)
    ensures NeedsEscape(c) ==> 2 <= |e| && e[0] == '\\'
    ensures !NeedsEscape(c) ==> e == [c]
  {
    if c == '"' then ['\\', '"']
    else if c == '\\' then ['\\', '\\']
    else if c == '\U{0008}' then ['\\', 'b']
    else if c == '\t' then ['\\', 't']
    else if c == '\n' then ['\\', 'n']
    else if c == '\U{000C}' then ['\\', 'f']
    else if c == '\r' then ['\\', 'r']
    else if (c as int) < 0x20 then ['\\', 'u', '0', '0', HexDigit(c as int / 16), HexDigit(c as int % 16)]
    else [c]
  }

  function EscapeBody(s: string): string {
    if s == [] then [] else EscapeChar(s[0]) + EscapeBody(s[1..])
  }

  /** A JSON string literal. */
  function Quote(s: string): string {
    ['"'] + EscapeBody(s) + ['"']
  }

  function MemberText(a: Attribute): string {
    Quote(a.0) + [':'] + Quote(a.1)
  }

  function MembersText(k: Key): string {
    if k == [] then []
    else if |k| == 1 then MemberText(k[0])
    else MemberText(k[0]) + [','] + MembersText(k[1..])
  }

  /** `JSON.stringify(key)`: no white space, members in property order. */
  function Stringify(k: Key): string {
    ['{'] + MembersText(k) + ['}']
  }

  // ----------------------------------------------------------------- parsing

  /** The white space JSON allows between tokens. */
  predicate IsJsonSpace(c: char) {
    c == ' ' || c == '\t' || c == '\n' || c == '\r'
  }

  function SkipSpace(s: string): (r: string)
    ensures |r| <= |s|
    ensures r == [] || !IsJsonSpace(r[0])
  {
    if s != [] && IsJsonSpace(s[0]) then SkipSpace(s[1..]) else s
  }

  function HexValue(c: char): (r: Option<nat>)
    ensures r.Some? ==> r.value < 16
  {
    if '0' <= c <= '9' then Some(c as int - '0' as int)
    else if 'a' <= c <= 'f' then Some(c as int - 'a' as int + 10)
    else if 'A' <= c <= 'F' then Some(c as int - 'A' as int + 10)
    else None
  }

  /**
   * One escape sequence, `s` being the text after the backslash. A `\u`
   * escape of a surrogate code unit, lone or as half of a pair, is not
   * accepted.
   */
  function ParseEscape(s: string): (r: Option<(char, string)>)
    ensures r.Some? ==> |r.value.1| < |s|
  {
    if s == [] then None
    else if s[0] == '"' then Some(('"', s[1..]))
    else if s[0] == '\\' then Some(('\\', s[1..]))
    else if s[0] == '/' then Some(('/', s[1..]))
    else if s[0] == 'b' then Some(('\U{0008}', s[1..]))
    else if s[0] == 'f' then Some(('\U{000C}', s[1..]))
    else if s[0] == 'n' then Some(('\n', s[1..]))
    else if s[0] == 'r' then Some(('\r', s[1..]))
    else if s[0] == 't' then Some(('\t', s[1..]))
    else if s[0] != 'u' || |s| < 5 then None
    else if HexValue(s[1]).None? || HexValue(s[2]).None? || HexValue(s[3]).None? || HexValue(s[4]).None? then None
    else
      var n := HexValue(s[1]).value * 4096 + HexValue(s[2]).value * 256 + HexValue(s[3]).value * 16 + HexValue(s[4]).value;
      if n < 0xD800 || 0xE000 <= n then Some((n as char, s[5..])) else None
  }

  /** The characters of a string literal up to its closing quote, and the text after it. */
  function ParseStringBody(s: string): (r: Option<(string, string)>)
    ensures r.Some? ==> |r.value.1| < |s|
  {
    if s == [] then None
    else if s[0] == '"' then Some(([], s[1..]))
    else if s[0] == '\\' then
      match ParseEscape(s[1..])
      case None => None
      case Some((c, rest)) =>
        match ParseStringBody(rest)
        case None => None
        case Some((body, after)) => Some(([c] + body, after))
    else if (s[0] as int) < 0x20 then None
    else
      match ParseStringBody(s[1..])
      case None => None
      case Some((body, after)) => Some(([s[0]] + body, after))
  }

  function ParseString(s: string): (r: Option<(string, string)>)
    ensures r.Some? ==> |r.value.1| < |s|
  {
    var t := SkipSpace(s);
    if t != [] && t[0] == '"' then ParseStringBody(t[1..]) else None
  }

  /**
   * Property assignment on a parsed object: a repeated name keeps its first
   * position and takes the later value.
   */
  function Assign(k: Key, name: string, value: string): (r: Key)
    ensures name !in Names(k) ==> r == k + [(name, value)]
  {
    if k == [] then [(name, value)]
    else if k[0].0 == name then [(name, value)] + k[1..]
    else
      assert name !in Names(k) ==> name !in Names(k[1..]) by {
        if name in Names(k[1..]) {
          var i :| 0 <= i < |k[1..]| && k[1..][i].0 == name;
          assert k[i + 1].0 == name;
        }
      }
      [k[0]] + Assign(k[1..], name, value)
  }

  /** One `"name": "value"` member. */
  function ParseMember(s: string): (r: Option<(Attribute, string)>)
    ensures r.Some? ==> |r.value.1| < |s|
  {
    match ParseString(s)
    case None => None
    case Some((name, r1)) =>
      var r2 := SkipSpace(r1);
      if r2 == [] || r2[0] != ':' then None
      else
        match ParseString(r2[1..])
        case None => None
        case Some((value, r3)) => Some(((name, value), r3))
  }

  /** Members after `{` or `,`, up to and including the closing `}`. */
  function ParseMembers(s: string, acc: Key): (r: Option<(Key, string)>)
    ensures r.Some? ==> |r.value.1| < |s|
    decreases |s|
  {
    match ParseMember(s)
    case None => None
    case Some((a, r1)) =>
      var acc' := Assign(acc, a.0, a.1);
      var r2 := SkipSpace(r1);
      if r2 == [] then None
      else if r2[0] == ',' then ParseMembers(r2[1..], acc')
      else if r2[0] == '}' then Some((acc', r2[1..]))
      else None
  }

  /** The members of an object after its `{`, and the text after its `}`. */
  function ParseObjectBody(s: string): (r: Option<(Key, string)>)
    ensures r.Some? ==> |r.value.1| < |s|
  {
    var u := SkipSpace(s);
    if u != [] && u[0] == '}' then Some(([], u[1..])) else ParseMembers(s, [])
  }

  /**
   * `JSON.parse(text)` when the text is an object whose values are all
   * strings; `None` where `JSON.parse` throws, and for texts of any other shape.
   */
  function Parse(s: string): Option<Key> {
    var t := SkipSpace(s);
    if t == [] || t[0] != '{' then None
    else
      match ParseObjectBody(t[1..])
      case None => None
      case Some((k, rest)) => if SkipSpace(rest) == [] then Some(k) else None
  }

  // ----------------------------------------------------------------- proofs

  lemma ParseEscapeChar(c: char, tail: string)
    requires NeedsEscape(c)
    ensures ParseEscape(EscapeChar(c)[1..] + tail) == Some((c, tail))
  {
    var e := EscapeChar(c)[1..] + tail;
    if c != '"' && c != '\\' && c != '\U{0008}' && c != '\t' && c != '\n' && c != '\U{000C}' && c != '\r' {
      var n := c as int;
      assert e[0] == 'u' && e[1] == '0' && e[2] == '0';
      assert e[3] == HexDigit(n / 16) && e[4] == HexDigit(n % 16);
      assert HexValue(e[3]) == Some(n / 16);
      assert HexValue(e[4]) == Some(n % 16);
      assert e[5..] == tail;
    } else {
      assert e[1..] == tail;
    }
  }

  /** The body parser reads one printed character and goes on after it. */
  lemma ParseStringBodyChar(c: char, tail: string)
    ensures ParseStringBody(EscapeChar(c) + tail)
         == match ParseStringBody(tail)
            case None => None
            case Some((body, after)) => Some(([c] + body, after))
  {
    var s := EscapeChar(c) + tail;
    if NeedsEscape(c) {
      assert s[1..] == EscapeChar(c)[1..] + tail;
      ParseEscapeChar(c, tail);
    } else {
      assert s[1..] == tail;
    }
  }

  lemma {:induction false} ParseStringBodyOf(v: string, rest: string)
    ensures ParseStringBody(EscapeBody(v) + ['"'] + rest) == Some((v, rest))
  {
    if v == [] {
      assert EscapeBody(v) + ['"'] + rest == ['"'] + rest;
    } else {
      var c := v[0];
      var tail := EscapeBody(v[1..]) + ['"'] + rest;
      assert EscapeBody(v) + ['"'] + rest == EscapeChar(c) + tail;
      ParseStringBodyOf(v[1..], rest);
      ParseStringBodyChar(c, tail);
      assert [c] + v[1..] == v;
    }
  }

  lemma ParseStringOf(v: string, rest: string)
    ensures ParseString(Quote(v) + rest) == Some((v, rest))
  {
    var s := Quote(v) + rest;
    assert s[1..] == EscapeBody(v) + ['"'] + rest;
    ParseStringBodyOf(v, rest);
  }

  /** After a name and a colon, the member parser reads the value. */
  lemma ParseMemberAfterName(s: string, name: string, r1: string)
    requires ParseString(s) == Some((name, r1)) && r1 != [] && r1[0] == ':'
    ensures ParseMember(s)
         == match ParseString(r1[1..])
            case None => None
            case Some((value, r3)) => Some(((name, value), r3))
  {
    assert SkipSpace(r1) == r1;
  }

  lemma ParseMemberOf(a: Attribute, rest: string)
    ensures ParseMember(MemberText(a) + rest) == Some((a, rest))
  {
    var r1 := [':'] + (Quote(a.1) + rest);
    assert MemberText(a) + rest == Quote(a.0) + r1;
    ParseStringOf(a.0, r1);
    assert r1[1..] == Quote(a.1) + rest;
    ParseStringOf(a.1, rest);
    ParseMemberAfterName(Quote(a.0) + r1, a.0, r1);
  }

  lemma NamesCons(k: Key)
    requires k != []
    ensures Names(k) == {k[0].0} + Names(k[1..])
  {
    forall x | x in Names(k) ensures x in {k[0].0} + Names(k[1..]) {
      var i :| 0 <= i < |k| && k[i].0 == x;
      if i > 0 {
        assert k[1..][i - 1].0 == x;
      }
    }
    forall x | x in Names(k[1..]) ensures x in Names(k) {
      var i :| 0 <= i < |k[1..]| && k[1..][i].0 == x;
      assert k[i + 1].0 == x;
    }
  }

  lemma NamesSnoc(k: Key, a: Attribute)
    ensures Names(k + [a]) == Names(k) + {a.0}
  {
    var k' := k + [a];
    forall x | x in Names(k') ensures x in Names(k) + {a.0} {
      var i :| 0 <= i < |k'| && k'[i].0 == x;
      if i < |k| { assert k[i].0 == x; }
    }
    forall x | x in Names(k) ensures x in Names(k') {
      var i :| 0 <= i < |k| && k[i].0 == x;
      assert k'[i].0 == x;
    }
    assert k'[|k|].0 == a.0;
  }

  lemma DistinctTail(k: Key)
    requires k != [] && DistinctNames(k)
    ensures DistinctNames(k[1..]) && k[0].0 !in Names(k[1..])
  {
  }

  /** After one member, the members parser assigns it and acts on the separator that follows. */
  lemma ParseMembersAfterMember(s: string, acc: Key, a: Attribute, r1: string)
    requires ParseMember(s) == Some((a, r1)) && r1 != [] && (r1[0] == ',' || r1[0] == '}')
    ensures ParseMembers(s, acc)
         == if r1[0] == ',' then ParseMembers(r1[1..], Assign(acc, a.0, a.1))
            else Some((Assign(acc, a.0, a.1), r1[1..]))
  {
    assert SkipSpace(r1) == r1;
  }

  /** One member then the separator `c`: the parser assigns the member and goes on after `c`. */
  lemma ParseMembersStep(a: Attribute, c: char, tail: string, acc: Key)
    requires c == ',' || c == '}'
    ensures ParseMembers(MemberText(a) + [c] + tail, acc)
         == if c == ',' then ParseMembers(tail, Assign(acc, a.0, a.1))
            else Some((Assign(acc, a.0, a.1), tail))
  {
    var r1 := [c] + tail;
    assert MemberText(a) + [c] + tail == MemberText(a) + r1;
    ParseMemberOf(a, r1);
    assert r1[1..] == tail;
    ParseMembersAfterMember(MemberText(a) + r1, acc, a, r1);
  }

  /** The text of two or more members is the first one, a comma and the others. */
  lemma MembersTextCons(k: Key, rest: string)
    requires |k| >= 2
    ensures MembersText(k) + ['}'] + rest == MemberText(k[0]) + [','] + (MembersText(k[1..]) + ['}'] + rest)
  {
    assert MembersText(k) == MemberText(k[0]) + [','] + MembersText(k[1..]);
    ConsText(MemberText(k[0]), MembersText(k[1..]), rest);
  }

  lemma ConsText(m: string, t: string, rest: string)
    ensures m + [','] + t + ['}'] + rest == m + [','] + (t + ['}'] + rest)
  {
  }

  /** The last member of an object is appended to the members read before it. */
  lemma ParseLastMember(k: Key, acc: Key, rest: string)
    requires |k| == 1 && k[0].0 !in Names(acc)
    ensures ParseMembers(MembersText(k) + ['}'] + rest, acc) == Some((acc + k, rest))
  {
    assert MembersText(k) == MemberText(k[0]);
    ParseMembersStep(k[0], '}', rest, acc);
    assert k == [k[0]];
  }

  /** A first member with a new name is appended, and the parser goes on with the others. */
  lemma ParseMembersCons(k: Key, acc: Key, rest: string)
    requires |k| >= 2 && k[0].0 !in Names(acc)
    ensures ParseMembers(MembersText(k) + ['}'] + rest, acc)
         == ParseMembers(MembersText(k[1..]) + ['}'] + rest, acc + [k[0]])
  {
    var tail := MembersText(k[1..]) + ['}'] + rest;
    MembersTextCons(k, rest);
    ParseMembersStep(k[0], ',', tail, acc);
  }

  /** Names that are new and distinct stay so once the first member has been read. */
  lemma NamesAfterFirst(k: Key, acc: Key)
    requires k != [] && DistinctNames(k) && Names(acc) !! Names(k)
    ensures k[0].0 !in Names(acc)
    ensures DistinctNames(k[1..]) && Names(acc + [k[0]]) !! Names(k[1..])
  {
    NamesCons(k);
    DistinctTail(k);
    NamesSnoc(acc, k[0]);
  }

  lemma AppendFirst(acc: Key, k: Key)
    requires k != []
    ensures acc + [k[0]] + k[1..] == acc + k
  {
    assert [k[0]] + k[1..] == k;
  }

  lemma {:induction false} ParseMembersOf(k: Key, acc: Key, rest: string)
    requires k != [] && DistinctNames(k)
    requires Names(acc) !! Names(k)
    ensures ParseMembers(MembersText(k) + ['}'] + rest, acc) == Some((acc + k, rest))
    decreases |k|
  {
    NamesAfterFirst(k, acc);
    if |k| == 1 {
      ParseLastMember(k, acc, rest);
    } else {
      ParseMembersOf(k[1..], acc + [k[0]], rest);
      AppendFirst(acc, k);
      ParseMembersCons(k, acc, rest);
    }
  }

  lemma MembersTextStart(k: Key)
    requires k != []
    ensures MembersText(k)[0] == '"'
  {
    if |k| == 1 {
      assert MembersText(k) == MemberText(k[0]);
    } else {
      assert MembersText(k) == MemberText(k[0]) + [','] + MembersText(k[1..]);
    }
  }

  lemma ParseObjectBodyOf(k: Key)
    requires DistinctNames(k)
    ensures ParseObjectBody(MembersText(k) + ['}']) == Some((k, []))
  {
    var t := MembersText(k) + ['}'];
    if k == [] {
      assert t == ['}'];
      assert SkipSpace(t) == t;
    } else {
      var none: Key := [];
      assert Names(none) == {};
      ParseMembersOf(k, none, []);
      assert MembersText(k) + ['}'] + [] == t;
      assert none + k == k;
      var m := ParseMembers(t, none);
      assert m == Some((k, []));
      MembersTextStart(k);
      assert SkipSpace(t) == t;
      assert ParseObjectBody(t) == m;
    }
  }

  /** Parsing the text of a key gives back the key. */
  lemma ParseStringify(k: Key)
    requires DistinctNames(k)
    ensures Parse(Stringify(k)) == Some(k)
  {
    var s := Stringify(k);
    assert SkipSpace(s) == s;
    assert s[1..] == MembersText(k) + ['}'];
    ParseObjectBodyOf(k);
  }
}
