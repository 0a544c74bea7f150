/** The fields of a debug NMEA sentence, cut out one comma at a time. */
module NmeaFields {
  import opened Splitting

  const NMEA_MINSIZE := 6
  const NMEA_MAXSIZE := 4096

  predicate IsDebug(str: string, length: int) {
    NMEA_MINSIZE <= length <= NMEA_MAXSIZE && "$PQW" <= str
  }

  /** The first star, which starts the checksum, counts as a comma; without one there are no fields. */
  function Fields(str: string, length: int): seq<string> {
    var i := Find(str, '*');
    if !IsDebug(str, length) || i == |str| then [] else Pieces(str[i := ','], ',')
  }

  // ---------------------------------------------------------------- what the fields are

  function Sentence(fields: seq<string>, checksum: string): string
    requires fields != []
  {
    Commas(fields) + "*" + checksum
  }

  function Commas(fields: seq<string>): string
    requires fields != []
  {
    if |fields| == 1 then fields[0] else fields[0] + "," + Commas(fields[1..])
  }

  lemma {:induction false} CommasGlue(fields: seq<string>)
    requires fields != []
    ensures Commas(fields) + "," == Glue(fields, ',')
    ensures Free(fields, '*') ==> '*' !in Commas(fields)
    ensures fields[0] <= Commas(fields)
  {
    assert fields == [fields[0]] + fields[1..];
    if |fields| == 1 {
      assert Glue(fields[1..], ',') == "";
    } else {
      CommasGlue(fields[1..]);
    }
  }

  /** Fields without commas and stars, sent as a sentence whose checksum has no comma, come back as they
      were, whatever the checksum says. */
  lemma FieldsComeBack(fields: seq<string>, checksum: string)
    requires fields != [] && Free(fields, ',') && Free(fields, '*') && ',' !in checksum
    requires "$PQW" <= fields[0]
    ensures var s := Sentence(fields, checksum);
            Fields(s, |s|) == if 6 <= |s| <= 4096 then fields else []
  {
    var head, s := Commas(fields), Sentence(fields, checksum);
    CommasGlue(fields);
    FindFirst(head, '*', checksum);
    assert s == head + ['*'] + checksum;
    assert s[|head| := ','] == Glue(fields, ',') + checksum;
    PiecesOfGlue(fields, checksum, ',');
    assert "$PQW" <= s by {
      assert fields[0] == s[..|fields[0]|];
    }
  }

  /** There are fields exactly when the sentence is a debug one, of 6 to 4096 characters, with a checksum. */
  lemma FieldsExact(str: string, length: int)
    ensures Fields(str, length) != [] <==> 6 <= length <= 4096 && "$PQW" <= str && '*' in str
  {
    var i := Find(str, '*');
    if i < |str| {
      var s := str[i := ','];
      assert s[i] == ',';
      PiecesFirst(s, Find(s, ','), ',');
      assert str[i] in str;
    } else {
      assert forall j :: 0 <= j < |str| ==> str[j] != '*';
    }
  }

  // ---------------------------------------------------------------- the object

  class SystemStatusNmeaBase {
    var field: seq<string>

    constructor (str: string, length: int)
      ensures field == Fields(str, length)
    {
      field := [];
      new;
      if !IsDebug(str, length) {
        return;
      }
      var parser := str;
      var index := Find(parser, '*');
      if index == |parser| {
        return;
      }
      parser := parser[index := ','];
      field := Tokenize(parser);
    }

    static method Tokenize(str: string) returns (fields: seq<string>)
      ensures fields == Pieces(str, ',')
    {
      var parser := str;
      fields := [];
      while true
        invariant fields + Pieces(parser, ',') == Pieces(str, ',')
        decreases |parser|
      {
        var index := Find(parser, ',');
        PiecesFirst(parser, index, ',');
        if index == |parser| {
          break;
        }
        var token := parser[..index];
        assert fields + [token] + Pieces(parser[index + 1..], ',') == fields + Pieces(parser, ',');
        parser := parser[index + 1..];
        fields := fields + [token];
      }
    }
  }
}
