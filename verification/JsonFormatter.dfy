/** The writer as the program has it: an output that grows piece by piece. */
module JsonFormatter {
  import opened Options
  import opened Utf8
  import opened JsonValue
  import opened JsonGrammar
  import opened JsonWriter
  import opened JsonTokens
  import T = JsonTheorems

  /** One more item behind the others. */
  lemma {:induction false} ItemsAppend(items: seq<Json>, last: Json, floats: Floats)
    ensures WriteItems(items + [last], floats)
            == WriteItems(items, floats) + (if items == [] then [] else [COMMA]) + Write(last, floats)
    decreases |items|
  {
    if items == [] {
      assert items + [last] == [last];
    } else {
      var first, rest := items[0], items[1..];
      assert (items + [last])[1..] == rest + [last];
      ItemsAppend(rest, last, floats);
      if rest == [] {
        assert items == [first];
      } else {
        var front, more := Write(first, floats) + [COMMA], WriteItems(rest, floats);
        Regroup(front, more, [COMMA]);
        Regroup(front, more + [COMMA], Write(last, floats));
      }
    }
  }

  lemma {:induction false} EntriesAppend(entries: seq<Entry>, last: Entry, floats: Floats)
    ensures WriteEntries(entries + [last], floats)
            == WriteEntries(entries, floats) + (if entries == [] then [] else [COMMA]) + WriteEntry(last, floats)
    decreases |entries|
  {
    if entries == [] {
      assert entries + [last] == [last];
    } else {
      var first, rest := entries[0], entries[1..];
      assert (entries + [last])[1..] == rest + [last];
      EntriesAppend(rest, last, floats);
      if rest == [] {
        assert entries == [first];
      } else {
        var front, more := WriteEntry(first, floats) + [COMMA], WriteEntries(rest, floats);
        Regroup(front, more, [COMMA]);
        Regroup(front, more + [COMMA], WriteEntry(last, floats));
      }
    }
  }

  /** A character of several bytes has no byte of ASCII. */
  lemma HighFront(text: Bytes)
    requires FrontLength(text) > 1
    ensures forall i :: 0 <= i < FrontLength(text) ==> text[i] >= 0x80
  {
  }

  lemma WriteHighFront(text: Bytes)
    requires FrontLength(text) > 1
    ensures var n := FrontLength(text); WriteBytes(text) == text[..n] + WriteBytes(text[n..])
  {
    var n := FrontLength(text);
    var front, rest := text[..n], text[n..];
    HighFront(text);
    T.WriteHighBytes(front);
    T.WriteBytesConcat(front, rest);
    assert text == front + rest;
  }

  /** The character at the front is escaped if it is one of ASCII that needs it, and copied otherwise. */
  lemma WriteFront(text: Bytes)
    requires FrontLength(text) > 0
    ensures var n := FrontLength(text);
            WriteBytes(text) == (if n == 1 then WriteByte(text[0]) else text[..n]) + WriteBytes(text[n..])
  {
    if FrontLength(text) > 1 {
      WriteHighFront(text);
    }
  }

  class Formatter {
    const floats: Floats
    var output: Bytes

    constructor (floats: Floats)
      ensures output == [] && this.floats == floats
    {
      this.floats := floats;
      output := [];
    }

    method Push(s: Bytes)
      modifies this
      ensures output == old(output) + s
    {
      output := output + s;
    }

    method FormatString(text: Bytes)
      requires Valid(text)
      modifies this
      ensures output == old(output) + WriteString(text)
    {
      Push([QUOTE]);
      ghost var front := output;
      var rest := text;
      while rest != []
        invariant Valid(rest) && output + WriteBytes(rest) == front + WriteBytes(text)
        decreases |rest|
      {
        var n := FrontLength(rest);
        WriteFront(rest);
        Regroup(output, if n == 1 then WriteByte(rest[0]) else rest[..n], WriteBytes(rest[n..]));
        if n > 1 {
          Push(rest[..n]);
        } else {
          FormatAscii(rest[0]);
        }
        rest := rest[n..];
      }
      assert output + WriteBytes([]) == output;
      Push([QUOTE]);
      Regroup(old(output), [QUOTE], WriteBytes(text));
      Regroup(old(output), [QUOTE] + WriteBytes(text), [QUOTE]);
    }

    method FormatAscii(b: byte)
      requires b < 0x80
      modifies this
      ensures output == old(output) + WriteByte(b)
    {
      if b == 0x22 {
        Push([BACKSLASH, QUOTE]);
      } else if b == 0x5C {
        Push([BACKSLASH, BACKSLASH]);
      } else if b == 0x08 {
        Push([BACKSLASH, 0x62]);
      } else if b == 0x0C {
        Push([BACKSLASH, 0x66]);
      } else if b == 0x0A {
        Push([BACKSLASH, 0x6E]);
      } else if b == 0x0D {
        Push([BACKSLASH, 0x72]);
      } else if b == 0x09 {
        Push([BACKSLASH, 0x74]);
      } else if b < 0x20 {
        Push([BACKSLASH, LETTER_U, ZERO, ZERO, HexByte(b / 16), HexByte(b % 16)]);
      } else {
        Push([b]);
      }
    }

    method FormatValue(v: Json)
      requires Proper(v)
      modifies this
      ensures output == old(output) + Write(v, floats)
      decreases v
    {
      match v
      case Null => Push(NULL);
      case Bool(flag) => Push(if flag then TRUE else FALSE);
      case Integer(i) => Push(WriteInteger(i));
      case Float(bits) => Push(if Finite(bits) then floats.format(bits) else NULL);
      case Text(text) => FormatString(text);
      case Array(items) => FormatItems(items);
      case Object(entries) => FormatEntries(entries);
    }

    method FormatItems(items: seq<Json>)
      requires forall i :: 0 <= i < |items| ==> Proper(items[i])
      modifies this
      ensures output == old(output) + Write(Array(items), floats)
      decreases items
    {
      Push([OPEN_BRACKET]);
      ghost var front := output;
      assert output == front + WriteItems(items[..0], floats);
      for index := 0 to |items|
        invariant output == front + WriteItems(items[..index], floats)
      {
        ghost var before := WriteItems(items[..index], floats);
        if index != 0 {
          Push([COMMA]);
        }
        ghost var comma: Bytes := if items[..index] == [] then [] else [COMMA];
        assert output == front + before + comma;
        FormatValue(items[index]);
        ItemsAppend(items[..index], items[index], floats);
        assert items[..index + 1] == items[..index] + [items[index]];
        Regroup(front, before, comma);
        Regroup(front, before + comma, Write(items[index], floats));
      }
      assert items[..|items|] == items;
      Push([CLOSE_BRACKET]);
      Regroup(old(output), [OPEN_BRACKET], WriteItems(items, floats));
      Regroup(old(output), [OPEN_BRACKET] + WriteItems(items, floats), [CLOSE_BRACKET]);
    }

    method FormatEntries(entries: seq<Entry>)
      requires forall i :: 0 <= i < |entries| ==> Valid(entries[i].key) && Proper(entries[i].value)
      modifies this
      ensures output == old(output) + Write(Object(entries), floats)
      decreases entries
    {
      Push([OPEN_BRACE]);
      ghost var front := output;
      assert output == front + WriteEntries(entries[..0], floats);
      for index := 0 to |entries|
        invariant output == front + WriteEntries(entries[..index], floats)
      {
        ghost var before := WriteEntries(entries[..index], floats);
        if index != 0 {
          Push([COMMA]);
        }
        ghost var comma: Bytes := if entries[..index] == [] then [] else [COMMA];
        assert output == front + before + comma;
        FormatEntry(entries[index]);
        EntriesAppend(entries[..index], entries[index], floats);
        assert entries[..index + 1] == entries[..index] + [entries[index]];
        Regroup(front, before, comma);
        Regroup(front, before + comma, WriteEntry(entries[index], floats));
      }
      assert entries[..|entries|] == entries;
      Push([CLOSE_BRACE]);
      Regroup(old(output), [OPEN_BRACE], WriteEntries(entries, floats));
      Regroup(old(output), [OPEN_BRACE] + WriteEntries(entries, floats), [CLOSE_BRACE]);
    }

    method FormatEntry(e: Entry)
      requires Valid(e.key) && Proper(e.value)
      modifies this
      ensures output == old(output) + WriteEntry(e, floats)
      decreases e
    {
      FormatString(e.key);
      Push([COLON]);
      FormatValue(e.value);
      Regroup(old(output), WriteString(e.key), [COLON]);
      Regroup(old(output), WriteString(e.key) + [COLON], Write(e.value, floats));
    }
  }
}
