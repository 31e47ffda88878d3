/** The text the system renders: the scrape body of the HTTP handler, one
    `key value` line per table entry, and the label-rich line of `render`
    (`{k="v", ...} value time`). Value formatting (`%f`) is a parameter. */
module Exposition {
  import opened Readings

  /** `order` lists every key of `keys` exactly once: one iteration order of
      a map whose key set is `keys`. */
  ghost predicate Enumerates(order: seq<string>, keys: set<string>)
  {
    && (forall i, j :: 0 <= i < j < |order| ==> order[i] != order[j])
    && (forall k :: k in keys <==> k in order)
  }

  /** An enumeration has exactly as many elements as the set it enumerates. */
  lemma {:induction false} EnumerationSize(order: seq<string>, keys: set<string>)
    requires Enumerates(order, keys)
    ensures |order| == |keys|
  {
    if order != [] {
      var last := order[|order| - 1];
      var front := order[..|order| - 1];
      assert last in keys;
      forall k
        ensures k in keys - {last} <==> k in front
      {
        if k in front {
          var i :| 0 <= i < |front| && front[i] == k;
          assert order[i] == k && order[|order| - 1] == last;
        }
        if k in keys - {last} {
          assert k in order;
          var i :| 0 <= i < |order| && order[i] == k;
          assert i != |order| - 1;
          assert front[i] == k;
        }
      }
      EnumerationSize(front, keys - {last});
    } else {
      assert forall k :: k !in keys;
      assert keys == {};
    }
  }

  /** One line of the scrape body. */
  function EntryLine(key: string, value: string): (r: string)
  {
    key + " " + value + "\n"
  }

  /** The scrape body for the table `lines` visited in `order`. */
  function Body(lines: map<string, Reading>, order: seq<string>, format: real -> string): (r: string)
    requires forall i :: 0 <= i < |order| ==> order[i] in lines
  {
    if order == [] then ""
    else
      var k := order[|order| - 1];
      Body(lines, order[..|order| - 1], format) + EntryLine(k, format(lines[k].Value))
  }

  /** An empty table renders an empty body. */
  lemma EmptyTableEmptyBody(lines: map<string, Reading>, order: seq<string>, format: real -> string)
    requires lines == map[] && Enumerates(order, lines.Keys)
    ensures (forall i :: 0 <= i < |order| ==> order[i] in lines) && Body(lines, order, format) == ""
  {
  }

  /** The number of occurrences of `c` in `s`. */
  function Count(c: char, s: string): (r: nat)
  {
    if s == [] then 0 else Count(c, s[..|s| - 1]) + (if s[|s| - 1] == c then 1 else 0)
  }

  lemma {:induction false} CountAppend(c: char, s: string, t: string)
    ensures Count(c, s + t) == Count(c, s) + Count(c, t)
  {
    if t != [] {
      CountAppend(c, s, t[..|t| - 1]);
      assert (s + t)[..|s + t| - 1] == s + t[..|t| - 1];
    } else {
      assert s + t == s;
    }
  }

  lemma {:induction false} CountAbsent(c: char, s: string)
    requires c !in s
    ensures Count(c, s) == 0
  {
    if s != [] {
      CountAbsent(c, s[..|s| - 1]);
    }
  }

  /** When no key and no formatted value contains a line break, the body holds
      exactly one line break per visited entry. */
  lemma {:induction false} BodyLineCount(lines: map<string, Reading>, order: seq<string>, format: real -> string)
    requires forall i :: 0 <= i < |order| ==> order[i] in lines
    requires forall i :: 0 <= i < |order| ==> '\n' !in order[i] + " " + format(lines[order[i]].Value)
    ensures Count('\n', Body(lines, order, format)) == |order|
  {
    if order != [] {
      var k := order[|order| - 1];
      var text := k + " " + format(lines[k].Value);
      BodyLineCount(lines, order[..|order| - 1], format);
      CountAppend('\n', Body(lines, order[..|order| - 1], format), EntryLine(k, format(lines[k].Value)));
      assert EntryLine(k, format(lines[k].Value)) == text + "\n";
      CountAppend('\n', text, "\n");
      CountAbsent('\n', text);
    }
  }

  /** The handler writes one line per table entry: for an enumeration of the
      whole table, the body holds exactly `|lines|` line breaks. */
  lemma HandlerLineCount(lines: map<string, Reading>, order: seq<string>, format: real -> string)
    requires Enumerates(order, lines.Keys)
    requires forall k :: k in lines ==> '\n' !in k + " " + format(lines[k].Value)
    ensures (forall i :: 0 <= i < |order| ==> order[i] in lines)
    ensures Count('\n', Body(lines, order, format)) == |lines|
  {
    assert forall i :: 0 <= i < |order| ==> order[i] in order;
    BodyLineCount(lines, order, format);
    EnumerationSize(order, lines.Keys);
  }

  // ---------------------------------------------------------------------
  // The label-rich renderer

  /** The source's `int64`. */
  newtype int64 = x: int | -0x8000_0000_0000_0000 <= x < 0x8000_0000_0000_0000

  function Digit(d: int): (r: char)
    requires 0 <= d < 10
  {
    ('0' as int + d) as char
  }

  function DigitValue(c: char): (r: int)
  {
    c as int - '0' as int
  }

  /** `n` in decimal notation: digits only, without leading zeros. */
  function Natural(n: nat): (r: string)
  {
    if n < 10 then [Digit(n)] else Natural(n / 10) + [Digit(n % 10)]
  }

  /** `n` as `%d` prints it: a minus sign for negative numbers, then the digits. */
  function Decimal(n: int): (r: string)
  {
    if n < 0 then "-" + Natural(-n) else Natural(n)
  }

  function ParseNatural(s: string): (r: int)
  {
    if s == [] then 0 else ParseNatural(s[..|s| - 1]) * 10 + DigitValue(s[|s| - 1])
  }

  /** Reads back a number written by `Decimal`. */
  function ParseDecimal(s: string): (r: int)
  {
    if s != [] && s[0] == '-' then -ParseNatural(s[1..]) else ParseNatural(s)
  }

  lemma {:induction false} NaturalRoundTrip(n: nat)
    ensures Natural(n) != [] && '0' <= Natural(n)[0] <= '9'
    ensures forall i :: 0 <= i < |Natural(n)| ==> '0' <= Natural(n)[i] <= '9'
    ensures n > 0 ==> Natural(n)[0] != '0'
    ensures ParseNatural(Natural(n)) == n
  {
    if n >= 10 {
      NaturalRoundTrip(n / 10);
      var s := Natural(n / 10) + [Digit(n % 10)];
      assert s[..|s| - 1] == Natural(n / 10);
    }
  }

  /** The timestamp printed by `render` reads back as the timestamp. */
  lemma DecimalRoundTrip(n: int)
    ensures ParseDecimal(Decimal(n)) == n
  {
    if n < 0 {
      NaturalRoundTrip(-n);
      assert ("-" + Natural(-n))[1..] == Natural(-n);
    } else {
      NaturalRoundTrip(n);
    }
  }

  /** One label as `render` writes it: `k="v"`. */
  function LabelText(pair: (string, string)): (r: string)
  {
    pair.0 + "=\"" + pair.1 + "\""
  }

  function LabelTexts(labels: seq<(string, string)>): (r: seq<string>)
    ensures |r| == |labels|
  {
    seq(|labels|, i requires 0 <= i < |labels| => LabelText(labels[i]))
  }

  /** The elements of `xs` with `sep` between neighbours. */
  function Join(sep: string, xs: seq<string>): (r: string)
  {
    if xs == [] then ""
    else if |xs| == 1 then xs[0]
    else Join(sep, xs[..|xs| - 1]) + sep + xs[|xs| - 1]
  }

  /** Every pair of every label map, map after map, each in its iteration order. */
  function Pairs(maps: seq<seq<(string, string)>>): (r: seq<(string, string)>)
  {
    if maps == [] then [] else Pairs(maps[..|maps| - 1]) + maps[|maps| - 1]
  }

  /** The line `render` returns; the metric name is not part of it. */
  function Rendered(value: string, time: int, maps: seq<seq<(string, string)>>): (r: string)
  {
    "{" + Join(", ", LabelTexts(Pairs(maps))) + "} " + value + " " + Decimal(time)
  }

  /** The pairs of map `m`, in its order, sit in the joint list right after
      those of the maps before it. */
  lemma {:induction false} PairsPosition(maps: seq<seq<(string, string)>>, m: nat, j: nat)
    requires m < |maps| && j < |maps[m]|
    ensures |Pairs(maps[..m])| + j < |Pairs(maps)|
    ensures Pairs(maps)[|Pairs(maps[..m])| + j] == maps[m][j]
  {
    var front := maps[..|maps| - 1];
    if m == |maps| - 1 {
      assert maps[..m] == front;
    } else {
      PairsPosition(front, m, j);
      assert front[..m] == maps[..m];
    }
  }

  /** Joint list length: the pair list covers all pairs of all maps. */
  lemma {:induction false} PairsLength(maps: seq<seq<(string, string)>>)
    ensures |Pairs(maps)| == SizeSum(maps)
  {
    if maps != [] {
      PairsLength(maps[..|maps| - 1]);
    }
  }

  function SizeSum(maps: seq<seq<(string, string)>>): (r: nat)
  {
    if maps == [] then 0 else SizeSum(maps[..|maps| - 1]) + |maps[|maps| - 1]|
  }

  /** With no labels at all (no maps, or only empty ones) the braces are empty. */
  lemma {:induction false} RenderedWithoutLabels(value: string, time: int, maps: seq<seq<(string, string)>>)
    requires forall m :: 0 <= m < |maps| ==> maps[m] == []
    ensures Rendered(value, time, maps) == "{} " + value + " " + Decimal(time)
  {
    NoPairs(maps);
  }

  lemma {:induction false} NoPairs(maps: seq<seq<(string, string)>>)
    requires forall m :: 0 <= m < |maps| ==> maps[m] == []
    ensures Pairs(maps) == []
  {
    if maps != [] {
      NoPairs(maps[..|maps| - 1]);
    }
  }

  /** Writing one more label after the ones in `done`: the separator unless
      it is the first, then `k="v"`. */
  lemma RenderStep(buffer: string, done: seq<(string, string)>, pair: (string, string))
    requires buffer == "{" + Join(", ", LabelTexts(done))
    ensures (if done == [] then buffer else buffer + ", ") + pair.0 + "=\"" + pair.1 + "\"" ==
            "{" + Join(", ", LabelTexts(done + [pair]))
  {
    var xs := LabelTexts(done + [pair]);
    assert xs[..|xs| - 1] == LabelTexts(done);
    assert xs[|xs| - 1] == LabelText(pair);
  }

  /** `render`: writes `{`, then every label of every map separated by `, `
      (a `first` flag suppresses the separator before the first), then `} `,
      the value, a space and the timestamp in decimal. */
  method Render(name: string, value: string, time: int64, maps: seq<seq<(string, string)>>)
    returns (s: string)
    ensures s == Rendered(value, time as int, maps)
  {
    var buffer := "{";
    var first := true;
    var m := 0;
    while m < |maps|
      invariant 0 <= m <= |maps|
      invariant buffer == "{" + Join(", ", LabelTexts(Pairs(maps[..m])))
      invariant first <==> Pairs(maps[..m]) == []
    {
      var l := maps[m];
      var j := 0;
      assert Pairs(maps[..m]) + l[..j] == Pairs(maps[..m]);
      while j < |l|
        invariant 0 <= j <= |l|
        invariant buffer == "{" + Join(", ", LabelTexts(Pairs(maps[..m]) + l[..j]))
        invariant first <==> Pairs(maps[..m]) + l[..j] == []
      {
        ghost var done := Pairs(maps[..m]) + l[..j];
        RenderStep(buffer, done, l[j]);
        if !first {
          buffer := buffer + ", ";
        } else {
          first := false;
        }
        buffer := buffer + l[j].0 + "=\"" + l[j].1 + "\"";
        assert l[..j + 1] == l[..j] + [l[j]];
        assert Pairs(maps[..m]) + l[..j + 1] == (Pairs(maps[..m]) + l[..j]) + [l[j]];
        j := j + 1;
      }
      assert l[..j] == l;
      assert maps[..m + 1][..m] == maps[..m];
      m := m + 1;
    }
    assert maps[..m] == maps;
    buffer := buffer + "} " + value + " " + Decimal(time as int);
    s := buffer;
  }
}
