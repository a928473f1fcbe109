/** `new URLSearchParams(search).get(name)`, the query lookup both adapters use
    to read launch flags from the page URL, with form decoding of names and
    values. */
module UrlQuery {
  import opened JsBuiltins

  /** `s.split(sep)`: always at least one part, none containing `sep`. */
  function Split(s: string, sep: char): (parts: seq<string>)
    ensures |parts| >= 1
    ensures forall i :: 0 <= i < |parts| ==> sep !in parts[i]
  {
    if s == [] then [""]
    else
      var rest := Split(s[1..], sep);
      if s[0] == sep then [""] + rest
      else [[s[0]] + rest[0]] + rest[1..]
  }

  lemma {:induction false} SplitWithoutSeparator(s: string, sep: char)
    requires sep !in s
    ensures Split(s, sep) == [s]
  {
    if s != [] {
      SplitWithoutSeparator(s[1..], sep);
      assert [s[0]] + s[1..] == s;
    }
  }

  /** The value of a hexadecimal digit, -1 for any other character. */
  function HexValue(c: char): (v: int)
    ensures -1 <= v < 16
    ensures v >= 0 <==> ('0' <= c <= '9' || 'a' <= c <= 'f' || 'A' <= c <= 'F')
  {
    if '0' <= c <= '9' then c as int - '0' as int
    else if 'a' <= c <= 'f' then c as int - 'a' as int + 10
    else if 'A' <= c <= 'F' then c as int - 'A' as int + 10
    else -1
  }

  /** `s` starts with a `%XX` escape of a byte below 0x80, a whole character. */
  predicate AsciiEscapeAt(s: string) {
    |s| >= 3 && s[0] == '%' && HexValue(s[1]) >= 0 && HexValue(s[2]) >= 0 &&
    16 * HexValue(s[1]) + HexValue(s[2]) < 0x80
  }

  /** Form decoding of a name or value: '+' becomes a space and a `%XX` escape
      of an ASCII byte becomes that character; any other '%' stays as it is. */
  function FormDecode(s: string): (r: string)
    ensures |r| <= |s|
    ensures '+' !in s && '%' !in s ==> r == s
  {
    if s == [] then []
    else if s[0] == '+' then [' '] + FormDecode(s[1..])
    else if AsciiEscapeAt(s) then [(16 * HexValue(s[1]) + HexValue(s[2])) as char] + FormDecode(s[3..])
    else [s[0]] + FormDecode(s[1..])
  }

  /** An escaped 'e' decodes: `tru%65` is 'true'. */
  lemma EscapedTrueDecodes()
    ensures FormDecode("tru%65") == "true"
  {
  }

  /** An escaped 'a' decodes: `%61dmin` is 'admin'. */
  lemma EscapedAdminDecodes()
    ensures FormDecode("%61dmin") == "admin"
  {
  }

  /** One `name=value` piece: the name runs to the first '=', the value is the
      rest ("" when there is no '='). */
  function ParsePair(piece: string): (string, string)
  {
    if piece == [] then ("", "")
    else if piece[0] == '=' then ("", piece[1..])
    else
      var (n, v) := ParsePair(piece[1..]);
      ([piece[0]] + n, v)
  }

  lemma {:induction false} ParsePairOfNameValue(name: string, value: string)
    requires '=' !in name
    ensures ParsePair(name + "=" + value) == (name, value)
  {
    if name != [] {
      ParsePairOfNameValue(name[1..], value);
      var piece := name + "=" + value;
      assert piece[0] == name[0] && piece[0] != '=';
      assert piece[1..] == name[1..] + "=" + value;
      assert [name[0]] + name[1..] == name;
    } else {
      assert (name + "=" + value)[1..] == value;
    }
  }

  /** The decoded pairs of a query string, in order; empty pieces are skipped
      and one leading '?' is dropped. */
  function Pairs(search: string): seq<(string, string)> {
    var body := if search != [] && search[0] == '?' then search[1..] else search;
    PairsOf(Split(body, '&'))
  }

  function PairsOf(pieces: seq<string>): seq<(string, string)> {
    if pieces == [] then []
    else
      var rest := PairsOf(pieces[1..]);
      if pieces[0] == "" then rest
      else
        var (n, v) := ParsePair(pieces[0]);
        [(FormDecode(n), FormDecode(v))] + rest
  }

  /** `params.get(name)`: the value of the first pair with that name, None for null. */
  function FirstValue(pairs: seq<(string, string)>, name: string): (r: Option<string>)
    ensures r.None? <==> forall i :: 0 <= i < |pairs| ==> pairs[i].0 != name
    ensures r.Some? ==> exists i :: 0 <= i < |pairs| && pairs[i] == (name, r.value) &&
                                    forall j :: 0 <= j < i ==> pairs[j].0 != name
  {
    if pairs == [] then None
    else if pairs[0].0 == name then Some(pairs[0].1)
    else
      var r := FirstValue(pairs[1..], name);
      FirstMatchShifts(pairs, name, r);
      r
  }

  /** A first match in the tail, behind a head of another name, is a first
      match of the whole list. */
  lemma FirstMatchShifts(pairs: seq<(string, string)>, name: string, r: Option<string>)
    requires pairs != [] && pairs[0].0 != name
    requires r.Some? ==> exists i :: 0 <= i < |pairs[1..]| && pairs[1..][i] == (name, r.value) &&
                                     forall j :: 0 <= j < i ==> pairs[1..][j].0 != name
    ensures r.Some? ==> exists i :: 0 <= i < |pairs| && pairs[i] == (name, r.value) &&
                                    forall j :: 0 <= j < i ==> pairs[j].0 != name
  {
    if r.Some? {
      var i :| 0 <= i < |pairs[1..]| && pairs[1..][i] == (name, r.value) &&
               forall j :: 0 <= j < i ==> pairs[1..][j].0 != name;
      assert pairs[i + 1] == (name, r.value);
      forall j | 0 <= j < i + 1
        ensures pairs[j].0 != name
      {
        if j > 0 {
          assert pairs[j] == pairs[1..][j - 1];
        }
      }
    }
  }

  function Get(search: string, name: string): (r: Option<string>)
    ensures r.None? <==> forall i :: 0 <= i < |Pairs(search)| ==> Pairs(search)[i].0 != name
    ensures r.Some? ==> exists i :: 0 <= i < |Pairs(search)| && Pairs(search)[i] == (name, r.value) &&
                                    forall j :: 0 <= j < i ==> Pairs(search)[j].0 != name
  {
    FirstValue(Pairs(search), name)
  }

  /** A parameter name that needs no escaping in a query string. */
  predicate IsPlainName(name: string) {
    name != "" && '=' !in name && '&' !in name && '+' !in name && '%' !in name
  }

  /** A query holding the single pair `name=value` decodes to that pair alone,
      so it answers the decoded value for `name` and null for every other name. */
  lemma GetOfSinglePair(search: string, name: string, value: string)
    requires IsPlainName(name) && '&' !in value
    requires search == "?" + name + "=" + value
    ensures Pairs(search) == [(name, FormDecode(value))]
    ensures Get(search, name) == Some(FormDecode(value))
    ensures forall other :: other != name ==> Get(search, other).None?
  {
    var piece := name + "=" + value;
    assert search[1..] == piece;
    assert '&' !in piece by {
      forall i | 0 <= i < |piece| ensures piece[i] != '&' {
        if i < |name| { assert piece[i] == name[i]; }
        else if i > |name| { assert piece[i] == value[i - |name| - 1]; }
      }
    }
    SplitWithoutSeparator(piece, '&');
    ParsePairOfNameValue(name, value);
    assert FormDecode(name) == name;
    assert PairsOf([piece]) == [(name, FormDecode(value))];
  }
}
