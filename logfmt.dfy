/**
 * The key=value log line `Log` writes: `_format` renders a dict entry by
 * entry, quoting and escaping string values, and falls back to a fixed line
 * when a value cannot be inspected; `_create_fmt` first sets the `message`
 * key when a message is given.
 */
module LogFormat {
  import opened Wrappers
  import opened PyDict

  /**
   * A value in the dict: `None`, a number (with the text `str()` gives it), a
   * string, or an object the `in` test rejects (such as an exception), with
   * the message of the `TypeError` that test raises.
   */
  datatype Value = NoneValue | Number(text: string) | Text(s: string) | Opaque(error: string)

  const MessageKey := "message"

  /** `v.replace('"', '\\"')`: a backslash before every double quote. */
  function Escape(s: string): string
  {
    if s == [] then [] else (if s[0] == '"' then ['\\', '"'] else [s[0]]) + Escape(s[1..])
  }

  /** Reading an escaped value back: a backslash-quote pair is a quote. */
  function Unescape(s: string): string
  {
    if |s| >= 2 && s[0] == '\\' && s[1] == '"' then ['"'] + Unescape(s[2..])
    else if s == [] then []
    else [s[0]] + Unescape(s[1..])
  }

  /** A string value as it appears after `=`: quoted when it holds a space or a quote, escaped when it holds a quote. */
  function Quote(s: string): string
  {
    if '"' in s then "\"" + Escape(s) + "\""
    else if ' ' in s then "\"" + s + "\""
    else s
  }

  /** Reading a rendered string value back. */
  function Unquote(q: string): string
  {
    if |q| >= 2 && q[0] == '"' && q[|q| - 1] == '"' then Unescape(q[1..|q| - 1]) else q
  }

  /** One rendered entry, `k=v`. */
  function Entry(k: string, v: Value): string
    requires v.Number? || v.Text?
  {
    k + "=" + if v.Number? then v.text else Quote(v.s)
  }

  /** The line `_format` returns when inspecting a value raised. */
  function Fallback(error: string): string
  {
    "exception=\"" + error + "\" description=\"Parsing log entry\""
  }

  /** The error of the first value that cannot be inspected, `None` values being skipped. */
  function FirstError(items: seq<(string, Value)>): Option<string>
  {
    if items == [] then None
    else
      var e := FirstError(items[..|items| - 1]);
      if e.Some? then e
      else if items[|items| - 1].1.Opaque? then Some(items[|items| - 1].1.error)
      else None
  }

  /**
   * What entry `i` adds: nothing for `None`, else the entry, after a space
   * when it is not the first entry of the dict (the separator is set after
   * every entry, `None` ones included).
   */
  function Piece(i: nat, k: string, v: Value): string
    requires !v.Opaque?
  {
    if v.NoneValue? then "" else (if i > 0 then " " else "") + Entry(k, v)
  }

  /** The line for entries none of which raises. */
  function Plain(items: seq<(string, Value)>): string
    requires FirstError(items).None?
  {
    if items == [] then ""
    else
      var n := |items| - 1;
      Plain(items[..n]) + Piece(n, items[n].0, items[n].1)
  }

  /** The line `_format` returns for a dict. */
  function LogLine(d: Dict<string, Value>): string
    requires Valid(d)
  {
    match FirstError(Items(d))
    case Some(e) => Fallback(e)
    case None => Plain(Items(d))
  }

  /** The dict `_create_fmt` formats: a copy with `message` set when a message is given and non-empty. */
  function WithMessage(d: Dict<string, Value>, message: Option<string>): (r: Dict<string, Value>)
    requires Valid(d)
    ensures Valid(r)
  {
    if message.Some? && message.value != "" then SetItem(d, MessageKey, Text(message.value)) else d
  }

  // ---------------------------------------------------------------------------
  // The methods

  /** A raising value ends the walk: no later entry changes the first error. */
  lemma {:induction false} FirstErrorStays(items: seq<(string, Value)>, i: nat)
    requires i < |items| && FirstError(items[..i + 1]).Some?
    ensures FirstError(items) == FirstError(items[..i + 1])
    decreases |items|
  {
    if |items| > i + 1 {
      var n := |items| - 1;
      assert items[..n][..i + 1] == items[..i + 1];
      FirstErrorStays(items[..n], i);
    } else {
      assert items[..i + 1] == items;
    }
  }

  lemma PlainStep(items: seq<(string, Value)>, i: nat)
    requires i < |items| && FirstError(items[..i]).None? && !items[i].1.Opaque?
    ensures FirstError(items[..i + 1]).None?
    ensures Plain(items[..i + 1]) == Plain(items[..i]) + Piece(i, items[i].0, items[i].1)
  {
    assert items[..i + 1][..i] == items[..i];
  }

  lemma FirstErrorAt(items: seq<(string, Value)>, i: nat)
    requires i < |items| && FirstError(items[..i]).None? && items[i].1.Opaque?
    ensures FirstError(items) == Some(items[i].1.error)
  {
    assert items[..i + 1][..i] == items[..i];
    FirstErrorStays(items, i);
  }

  /** `Log._format`. */
  method Format(d: Dict<string, Value>) returns (fmt: string)
    requires Valid(d)
    ensures fmt == LogLine(d)
  {
    var items := Items(d);
    fmt := "";
    var sep := "";
    for i := 0 to |items|
      invariant FirstError(items[..i]).None? && fmt == Plain(items[..i])
      invariant sep == if i > 0 then " " else ""
    {
      var (k, v) := items[i];
      if v.Opaque? {
        FirstErrorAt(items, i);
        return Fallback(v.error);
      }
      PlainStep(items, i);
      if !v.NoneValue? {
        var rendered;
        if v.Number? {
          rendered := v.text;
        } else if ' ' in v.s || '"' in v.s {
          if '"' in v.s {
            var j := Escape(v.s);
            rendered := "\"" + j + "\"";
          } else {
            rendered := "\"" + v.s + "\"";
          }
        } else {
          rendered := v.s;
        }
        assert Piece(i, k, v) == sep + (k + "=" + rendered);
        fmt := fmt + (sep + (k + "=" + rendered));
      }
      sep := " ";
    }
    assert items[..|items|] == items;
  }

  /** `Log._create_fmt`. */
  method CreateFmt(d: Dict<string, Value>, message: Option<string>) returns (fmt: string)
    requires Valid(d)
    ensures fmt == LogLine(WithMessage(d, message))
  {
    if message.Some? && message.value != "" {
      var copy := d;
      copy := SetItem(copy, MessageKey, Text(message.value));
      fmt := Format(copy);
    } else {
      fmt := Format(d);
    }
  }

  // ---------------------------------------------------------------------------
  // What the format promises

  /** Escaping loses nothing: reading it back gives the value. */
  lemma {:induction false} UnescapeEscape(s: string)
    ensures Unescape(Escape(s)) == s
    decreases |s|
  {
    if s != [] {
      UnescapeEscape(s[1..]);
      EscapeHead(s[1..]);
      if s[0] == '"' {
        assert Escape(s) == ['\\', '"'] + Escape(s[1..]);
        assert Escape(s)[2..] == Escape(s[1..]);
      } else {
        assert Escape(s) == [s[0]] + Escape(s[1..]);
        assert Escape(s)[1..] == Escape(s[1..]);
      }
    }
  }

  /** An escaped value never starts with a bare quote. */
  lemma EscapeHead(s: string)
    ensures Escape(s) != [] ==> Escape(s)[0] != '"'
    ensures s != [] ==> Escape(s) != []
  {
  }

  /** A value without quotes is its own reading. */
  lemma {:induction false} UnescapePlain(s: string)
    requires '"' !in s
    ensures Unescape(s) == s
    decreases |s|
  {
    if s != [] {
      assert s[1..] == s[1..] && '"' !in s[1..] by {
        forall c | c in s[1..] ensures c in s { }
      }
      UnescapePlain(s[1..]);
      assert s == [s[0]] + s[1..];
    }
  }

  /** Every quote inside an escaped value follows a backslash, so the closing quote is the only bare one. */
  lemma {:induction false} EscapedQuotes(s: string, i: nat)
    requires i < |Escape(s)| && Escape(s)[i] == '"'
    ensures i > 0 && Escape(s)[i - 1] == '\\'
    decreases |s|
  {
    var h := if s[0] == '"' then ['\\', '"'] else [s[0]];
    assert Escape(s) == h + Escape(s[1..]);
    if i >= |h| {
      EscapedQuotes(s[1..], i - |h|);
    }
  }

  /** Every rendered string value reads back as itself. */
  lemma QuoteRoundTrip(s: string)
    ensures Unquote(Quote(s)) == s
  {
    if '"' in s {
      var q := "\"" + Escape(s) + "\"";
      assert q[1..|q| - 1] == Escape(s);
      UnescapeEscape(s);
    } else if ' ' in s {
      var q := "\"" + s + "\"";
      assert q[1..|q| - 1] == s;
      UnescapePlain(s);
    } else {
      assert |s| > 0 ==> s[0] in s;
    }
  }

  /** The line falls back exactly when some value cannot be inspected. */
  lemma {:induction false} FallbackIff(items: seq<(string, Value)>)
    ensures FirstError(items).None? <==> forall i :: 0 <= i < |items| ==> !items[i].1.Opaque?
    decreases |items|
  {
    if items != [] {
      var n := |items| - 1;
      FallbackIff(items[..n]);
      assert forall i :: 0 <= i < n ==> items[..n][i] == items[i];
    }
  }

  /** The error reported is that of the first value that cannot be inspected. */
  lemma FirstErrorIsFirst(items: seq<(string, Value)>, i: nat)
    requires i < |items| && items[i].1.Opaque?
    requires forall j :: 0 <= j < i ==> !items[j].1.Opaque?
    ensures FirstError(items) == Some(items[i].1.error)
  {
    FallbackIff(items[..i]);
    FirstErrorAt(items, i);
  }

  /**
   * A `None` value after the first entry leaves no trace in the line; a
   * `None` first entry still makes the next entry start with a space.
   */
  lemma {:induction false} NoneSkipped(items: seq<(string, Value)>, i: nat)
    requires 0 < i < |items| && items[i].1.NoneValue? && FirstError(items).None?
    ensures FirstError(items[..i] + items[i + 1..]).None?
    ensures Plain(items[..i] + items[i + 1..]) == Plain(items)
    decreases |items|
  {
    var n := |items| - 1;
    var pre, x := items[..n], items[n];
    assert items == pre + [x];
    if i == n {
      assert items[..i] + items[i + 1..] == pre;
      PlainSnoc(pre, x);
    } else {
      var shorter := pre[..i] + pre[i + 1..];
      assert items[..i] + items[i + 1..] == shorter + [x];
      NoneSkipped(pre, i);
      PlainSnoc(shorter, x);
      PlainSnoc(pre, x);
      assert Piece(|shorter|, x.0, x.1) == Piece(|pre|, x.0, x.1);
    }
  }

  lemma LeadingNone(k1: string, k2: string, v: Value)
    requires v.Number? || v.Text?
    ensures FirstError([(k1, NoneValue), (k2, v)]).None?
    ensures Plain([(k1, NoneValue), (k2, v)]) == " " + Entry(k2, v)
  {
    PlainSnoc([], (k1, NoneValue));
    PlainSnoc([(k1, NoneValue)], (k2, v));
    assert [(k1, NoneValue)] + [(k2, v)] == [(k1, NoneValue), (k2, v)];
  }

  /** The rendered entries of the values that are not `None`, in order. */
  function Entries(items: seq<(string, Value)>): (r: seq<string>)
    requires FirstError(items).None?
    ensures |r| <= |items|
    ensures r == [] <==> forall i :: 0 <= i < |items| ==> items[i].1.NoneValue?
  {
    if items == [] then []
    else
      var n := |items| - 1;
      assert forall i :: 0 <= i < n ==> items[..n][i] == items[i];
      Entries(items[..n]) + if items[n].1.NoneValue? then [] else [Entry(items[n].0, items[n].1)]
  }

  /** `' '.join(ss)`. */
  function JoinSpace(ss: seq<string>): string
  {
    if ss == [] then ""
    else if |ss| == 1 then ss[0]
    else JoinSpace(ss[..|ss| - 1]) + " " + ss[|ss| - 1]
  }

  /** Joining with one more string. */
  lemma JoinSpaceSnoc(ss: seq<string>, e: string)
    ensures JoinSpace(ss + [e]) == if ss == [] then e else JoinSpace(ss) + " " + e
  {
    assert (ss + [e])[..|ss|] == ss;
  }

  /**
   * The line for entries none of which raises: the entries of the values that
   * are not `None`, joined by single spaces, with one space in front exactly
   * when the first value is `None` and a later one is not (the separator is
   * set after the first entry even when it was skipped).
   */
  lemma {:induction false} PlainJoined(items: seq<(string, Value)>)
    requires FirstError(items).None?
    ensures Plain(items) == Lead(items) + JoinSpace(Entries(items))
    decreases |items|
  {
    if items != [] {
      var n := |items| - 1;
      assert items == items[..n] + [items[n]];
      PlainJoined(items[..n]);
      PlainJoinedStep(items[..n], items[n]);
    }
  }

  /** The inductive step of `PlainJoined`: one more value. */
  lemma PlainJoinedStep(pre: seq<(string, Value)>, x: (string, Value))
    requires FirstError(pre).None? && !x.1.Opaque?
    requires Plain(pre) == Lead(pre) + JoinSpace(Entries(pre))
    ensures FirstError(pre + [x]).None?
    ensures Plain(pre + [x]) == Lead(pre + [x]) + JoinSpace(Entries(pre + [x]))
  {
    var items := pre + [x];
    PlainSnoc(pre, x);
    assert items[..|pre|] == pre;
    if x.1.NoneValue? {
      assert Entries(items) == Entries(pre);
      if pre != [] {
        assert items[0] == pre[0];
      }
      assert Lead(items) == Lead(pre);
    } else {
      ShownStep(pre, x);
    }
  }

  /** ... when the new value is shown. */
  lemma ShownStep(pre: seq<(string, Value)>, x: (string, Value))
    requires FirstError(pre).None? && (x.1.Number? || x.1.Text?)
    requires FirstError(pre + [x]).None?
    requires Plain(pre) == Lead(pre) + JoinSpace(Entries(pre))
    requires Plain(pre + [x]) == Plain(pre) + Piece(|pre|, x.0, x.1)
    ensures Plain(pre + [x]) == Lead(pre + [x]) + JoinSpace(Entries(pre + [x]))
  {
    var items := pre + [x];
    var e := Entry(x.0, x.1);
    assert items[..|pre|] == pre;
    assert Entries(items) == Entries(pre) + [e];
    JoinSpaceSnoc(Entries(pre), e);
    if pre == [] {
      assert Lead(items) == "";
    } else {
      assert items[0] == pre[0];
      assert Piece(|pre|, x.0, x.1) == " " + e;
      if Entries(pre) == [] {
        assert pre[0].1.NoneValue?;
        assert Lead(items) == " " && Plain(pre) == "";
      } else {
        assert Lead(items) == Lead(pre);
        Regroup(Lead(pre), JoinSpace(Entries(pre)), " ", e);
      }
    }
  }

  lemma Regroup(a: string, b: string, c: string, d: string)
    ensures (a + b) + (c + d) == a + (b + c + d)
  {
  }

  /** The space in front of the line: the first value is `None` and a later one is not. */
  function Lead(items: seq<(string, Value)>): string
    requires FirstError(items).None?
  {
    if items != [] && items[0].1.NoneValue? && Entries(items) != [] then " " else ""
  }

  /**
   * `_create_fmt` with a message and no `message` key: the line gains the
   * message as its last entry.
   */
  lemma MessageAppended(d: Dict<string, Value>, m: string)
    requires Valid(d) && m != "" && MessageKey !in d.vals && FirstError(Items(d)).None?
    ensures LogLine(WithMessage(d, Some(m))) == LogLine(d) + ((if |d.keys| > 0 then " " else "") + Entry(MessageKey, Text(m)))
  {
    ItemsAppend(d, MessageKey, Text(m));
    PlainSnoc(Items(d), (MessageKey, Text(m)));
  }

  lemma PlainSnoc(items: seq<(string, Value)>, x: (string, Value))
    requires FirstError(items).None? && !x.1.Opaque?
    ensures FirstError(items + [x]).None?
    ensures Plain(items + [x]) == Plain(items) + Piece(|items|, x.0, x.1)
  {
    assert (items + [x])[..|items|] == items;
  }

  /** With a `message` key already there, the message replaces its value in place. */
  lemma MessageReplaced(d: Dict<string, Value>, m: string, i: nat)
    requires Valid(d) && m != "" && i < |d.keys| && d.keys[i] == MessageKey
    ensures Items(WithMessage(d, Some(m))) == Items(d)[i := (MessageKey, Text(m))]
  {
  }

  /** Without a message, or with an empty one, the dict is formatted as it is. */
  lemma NoMessage(d: Dict<string, Value>, message: Option<string>)
    requires Valid(d) && (message.None? || message.value == "")
    ensures LogLine(WithMessage(d, message)) == LogLine(d)
  {
  }
}
