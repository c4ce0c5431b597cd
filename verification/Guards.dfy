/** lib/guards.ts: the limit clamp and the comma-separated set. */
module Guards {
  import opened Wrappers
  import opened Text

  // ---------------------------------------------------------------- clampInt

  /** `Math.trunc`: rounds toward zero. */
  function Trunc(x: real): int {
    if x < 0.0 then -((-x).Floor) else x.Floor
  }

  function Min(a: int, b: int): int {
    if a < b then a else b
  }

  function Max(a: int, b: int): int {
    if a < b then b else a
  }

  /** Clamps a number of any sign and fraction to the whole numbers `min..max`. */
  function ClampInt(value: real, min: int, max: int): int {
    Min(Max(Trunc(value), min), max)
  }

  /** The handler clamps, then the client clamps what the handler passed on. */
  function LimitSent(limit: real, ceiling: int): int {
    ClampInt(ClampInt(limit, 1, ceiling) as real, 1, ceiling)
  }

  /**
   * Both clamps together are one, and fix the limit sent completely: a whole number n of
   * `1..ceiling` is within it exactly when n is 1 or n is within the limit asked for.
   */
  lemma LimitPipeline(limit: real, ceiling: int, n: int)
    requires ceiling >= 1
    ensures LimitSent(limit, ceiling) == ClampInt(limit, 1, ceiling)
    ensures 1 <= LimitSent(limit, ceiling) <= ceiling
    ensures 1 <= n <= ceiling ==> (n <= LimitSent(limit, ceiling) <==> n == 1 || n as real <= limit)
  {
  }

  /** On the whole positive limits the input schemas accept it is the smaller of limit and ceiling. */
  lemma LimitOfSchemaInput(limit: int, ceiling: int)
    requires ceiling >= 1 && limit >= 1
    ensures LimitSent(limit as real, ceiling) == Min(limit, ceiling)
  {
    LimitPipeline(limit as real, ceiling, Min(limit, ceiling));
  }

  lemma LimitMonotone(a: real, b: real, ceiling: int)
    requires ceiling >= 1 && a <= b
    ensures LimitSent(a, ceiling) <= LimitSent(b, ceiling)
  {
    TruncMonotone(a, b);
    LimitPipeline(a, ceiling, 1);
    LimitPipeline(b, ceiling, 1);
  }

  lemma TruncMonotone(a: real, b: real)
    requires a <= b
    ensures Trunc(a) <= Trunc(b)
  {
  }

  // ---------------------------------------------------------------- parseCsvSet

  /** The non-empty trimmed fields of a comma-separated list. */
  function ParseCsvSet(raw: string): set<string> {
    FieldSet(Split(raw, ','))
  }

  function FieldSet(fields: seq<string>): set<string> {
    set i | 0 <= i < |fields| && Trim(fields[i]) != "" :: Trim(fields[i])
  }

  lemma FieldSetUnion(a: seq<string>, b: seq<string>)
    ensures FieldSet(a + b) == FieldSet(a) + FieldSet(b)
  {
    var c := a + b;
    forall x | x in FieldSet(a) + FieldSet(b) ensures x in FieldSet(c) {
      if x in FieldSet(a) {
        var i :| 0 <= i < |a| && Trim(a[i]) != "" && Trim(a[i]) == x;
        assert c[i] == a[i];
      } else {
        var i :| 0 <= i < |b| && Trim(b[i]) != "" && Trim(b[i]) == x;
        assert c[|a| + i] == b[i];
      }
    }
  }

  /** A comma between two lists is union. */
  lemma CsvCommaIsUnion(a: string, b: string)
    ensures ParseCsvSet(a + "," + b) == ParseCsvSet(a) + ParseCsvSet(b)
  {
    SplitAppend(a, ',', b);
    FieldSetUnion(Split(a, ','), Split(b, ','));
  }

  /** A name with the blanks written around it. */
  datatype Padded = Padded(left: string, name: string, right: string) {
    function Text(): string {
      left + name + right
    }

    ghost predicate Valid() {
      Blank(left) && Blank(right) && ',' !in name && (name == "" || Trimmed(name))
    }
  }

  function Texts(fields: seq<Padded>): (texts: seq<string>)
    ensures |texts| == |fields|
    ensures forall i | 0 <= i < |fields| :: texts[i] == fields[i].Text()
  {
    seq(|fields|, i requires 0 <= i < |fields| => fields[i].Text())
  }

  /**
   * Any comma-separated listing of a set of names, in any order, with repeats, padding and blank
   * fields, parses back to that set.
   */
  lemma CsvRoundTrip(names: set<string>, fields: seq<Padded>)
    requires |fields| >= 1
    requires forall i | 0 <= i < |fields| :: fields[i].Valid()
    requires forall n :: n in names <==> n != "" && exists i | 0 <= i < |fields| :: fields[i].name == n
    ensures ParseCsvSet(Join(Texts(fields), ",")) == names
  {
    var texts := Texts(fields);
    forall i | 0 <= i < |texts| ensures ',' !in texts[i] && Trim(texts[i]) == fields[i].name {
      PaddedTrims(fields[i]);
      BlankHasNoComma(fields[i].left);
      BlankHasNoComma(fields[i].right);
    }
    SplitJoin(texts, ',');
    forall n ensures n in FieldSet(texts) <==> n in names {
      if n in names {
        var i :| 0 <= i < |fields| && fields[i].name == n;
        assert Trim(texts[i]) == n;
      }
    }
  }

  lemma PaddedTrims(f: Padded)
    requires f.Valid()
    ensures Trim(f.Text()) == f.name
  {
    if f.name == "" {
      assert f.Text() == f.left + f.right;
      TrimEmpty(f.Text());
    } else {
      TrimPadded(f.left, f.name, f.right);
    }
  }

  lemma BlankHasNoComma(pad: string)
    requires Blank(pad)
    ensures ',' !in pad
  {
    assert !IsSpace(',');
  }

  /** Every name a parse yields is trimmed, non-empty and comma-free. */
  lemma CsvNamesAreClean(raw: string)
    ensures forall n | n in ParseCsvSet(raw) :: Trimmed(n) && ',' !in n
  {
    SplitPieces(raw, ',');
    forall n | n in ParseCsvSet(raw) ensures Trimmed(n) && ',' !in n {
      var fields := Split(raw, ',');
      var i :| 0 <= i < |fields| && Trim(fields[i]) == n && n != "";
      TrimResult(fields[i]);
    }
  }
}
