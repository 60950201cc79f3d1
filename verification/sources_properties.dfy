/**
 * Properties of the source command builder that relate several calls: the
 * deliberate `mysql` asymmetry between adding and dropping, what each command
 * does not depend on, and the dataset list as the inverse of joining names.
 */
module SourcesProperties {
  import opened Wrappers
  import opened JsStrings
  import opened SourcesUtils

  /** Postgres and every unrecognised tag share the Postgres command family. */
  predicate PgFamily(driver: Driver)
  {
    driver.Postgres? || driver.Other?
  }

  /**
   * `mysql` is not matched by `addSource`, which registers it with the Postgres
   * command, while `removeSource` gives it a prefix of its own.
   */
  lemma MysqlAddDropAsymmetry(payload: AddSourcePayload, replicas: Option<seq<Json>>, parseJson: string -> Option<Json>, name: string)
    ensures AddSource(Mysql, payload, replicas, parseJson).Success?
    ensures AddSource(Mysql, payload, replicas, parseJson).value.kind == "pg_add_source"
    ensures RemoveSource(Mysql, name).kind == "mysql_drop_source"
    ensures RemoveSource(Mysql, name).kind != RemoveSource(Postgres, name).kind
  {
    assert "mysql_drop_source"[1] != "pg_drop_source"[1];
  }

  /**
   * Two drop commands have the same operation exactly when both drivers are the
   * same tag or both fall back to the Postgres family.
   */
  lemma {:induction false} RemoveSourceKindDistinguishesFamilies(d1: Driver, d2: Driver, n1: string, n2: string)
    ensures RemoveSource(d1, n1).kind == RemoveSource(d2, n2).kind <==>
      (d1 == d2 && !PgFamily(d1)) || (PgFamily(d1) && PgFamily(d2))
  {
    var k1, k2 := RemoveSource(d1, n1).kind, RemoveSource(d2, n2).kind;
    var p1, p2 := DropPrefix(d1), DropPrefix(d2);
    if k1 == k2 {
      // equal texts with the same suffix have equal prefixes
      assert |p1| == |p2|;
      assert p1 == k1[..|p1|] && p2 == k2[..|p2|];
    }
    // the four prefixes differ pairwise in length or in their second letter
    assert "mssql_"[1] != "mysql_"[1];
    assert |"bigquery_"| != |"mssql_"| && |"bigquery_"| != |"pg_"| && |"mssql_"| != |"pg_"|;
  }

  /** Each driver has its own tag, so a `Driver` value stands for exactly one tag. */
  lemma DriverTagInjective(d1: Driver, d2: Driver)
    ensures DriverTag(d1) == DriverTag(d2) <==> d1 == d2
  {
  }

  /**
   * `addSource` picks its command by comparing the tag with `mssql` and then
   * `bigquery`; every other tag, `postgres` and `mysql` included, gets the
   * Postgres command.
   */
  lemma AddSourceDispatchesOnTag(driver: Driver, payload: AddSourcePayload, replicas: Option<seq<Json>>, parseJson: string -> Option<Json>)
    ensures DriverTag(driver) == "mssql" ==> AddSource(driver, payload, replicas, parseJson).value.kind == "mssql_add_source"
    ensures DriverTag(driver) == "bigquery" && AddSource(driver, payload, replicas, parseJson).Success? ==>
      AddSource(driver, payload, replicas, parseJson).value.kind == "bigquery_add_source"
    ensures DriverTag(driver) != "mssql" && DriverTag(driver) != "bigquery" ==>
      AddSource(driver, payload, replicas, parseJson).Success? &&
      AddSource(driver, payload, replicas, parseJson).value.kind == "pg_add_source"
  {
  }

  /** Two reload commands are the same exactly when they name the same source. */
  lemma ReloadSourceInjective(a: string, b: string)
    ensures ReloadSource(a) == ReloadSource(b) <==> a == b
  {
    if ReloadSource(a) == ReloadSource(b) {
      assert ReloadSource(a).args.reloadSources[0] == ReloadSource(b).args.reloadSources[0];
    }
  }

  /** Replicas are sent for the Postgres command only: the other two ignore them. */
  lemma AddSourceIgnoresReplicasOutsidePg(driver: Driver, payload: AddSourcePayload, x: Option<seq<Json>>, y: Option<seq<Json>>, parseJson: string -> Option<Json>)
    requires driver == Mssql || driver == BigQuery
    ensures AddSource(driver, payload, x, parseJson) == AddSource(driver, payload, y, parseJson)
  {
  }

  /** The JSON parser is consulted only for a literal BigQuery credential. */
  lemma AddSourceParsesOnlyLiteralCredentials(driver: Driver, payload: AddSourcePayload, replicas: Option<seq<Json>>, f: string -> Option<Json>, g: string -> Option<Json>)
    requires !(driver == BigQuery && payload.dbUrl.Literal?)
    ensures AddSource(driver, payload, replicas, f) == AddSource(driver, payload, replicas, g)
  {
  }

  /**
   * The datasets read from comma-joined pieces are those pieces trimmed, one
   * for one and in order.
   */
  lemma {:induction false} DatasetsOfJoinedPieces(pieces: seq<string>)
    requires |pieces| >= 1
    requires forall i :: 0 <= i < |pieces| ==> ',' !in pieces[i]
    ensures |Datasets(Join(pieces, ','))| == |pieces|
    ensures forall i :: 0 <= i < |pieces| ==> Datasets(Join(pieces, ','))[i] == Trim(pieces[i])
  {
    SplitOfJoin(pieces, ',');
    var sent := Datasets(Join(pieces, ','));
    forall i | 0 <= i < |pieces| ensures sent[i] == Trim(pieces[i]) {
      TrimCharacterised(pieces[i], sent[i]);
    }
  }

  /**
   * Reading the dataset list is the inverse of writing names joined by commas,
   * as long as no name holds a comma or has surrounding whitespace.
   */
  lemma {:induction false} DatasetsOfJoin(names: seq<string>)
    requires |names| >= 1
    requires forall i :: 0 <= i < |names| ==> ',' !in names[i] && Trim(names[i]) == names[i]
    ensures Datasets(Join(names, ',')) == names
  {
    DatasetsOfJoinedPieces(names);
  }

  /** A dataset text without commas is one dataset: the text trimmed. */
  lemma {:induction false} DatasetsSingle(text: string)
    requires ',' !in text
    ensures Datasets(text) == [Trim(text)]
  {
    SplitWithoutSeparator(text, ',');
    var sent := Datasets(text);
    TrimCharacterised(text, sent[0]);
  }

  /** An empty dataset text gives one empty dataset name, not an empty list. */
  lemma DatasetsOfEmptyText()
    ensures Datasets("") == [""]
  {
    DatasetsSingle("");
    assert TrimmedAt("", "", 0, 0);
    TrimCharacterised("", "");
  }

  /**
   * Three comma-separated pieces give three datasets, each its piece trimmed:
   * the shape of reading `"a, b ,c"` as `a`, `b` and `c`.
   */
  lemma DatasetsOfThreePieces(ps: seq<string>, text: string, sent: seq<string>)
    requires |ps| == 3 && forall i :: 0 <= i < |ps| ==> ',' !in ps[i]
    requires text == Join(ps, ',') && sent == Datasets(text)
    ensures |sent| == 3 && sent[0] == Trim(ps[0]) && sent[1] == Trim(ps[1]) && sent[2] == Trim(ps[2])
  {
    DatasetsOfJoinedPieces(ps);
    assert |sent| == |ps|;
    assert forall i :: 0 <= i < |ps| ==> sent[i] == Trim(ps[i]);
  }

  /** `"a, b ,c"` is the join of `"a"`, `" b "` and `"c"`. */
  lemma JoinExample(ps: seq<string>, text: string)
    requires ps == ["a", " b ", "c"] && text == "a, b ,c"
    ensures Join(ps, ',') == text
  {
    assert ps[1..][1..] == ["c"];
    assert Join(ps[1..], ',') == " b " + [','] + "c";
    assert Join(ps, ',') == "a" + [','] + (" b " + [','] + "c");
  }

  /** None of `"a"`, `" b "` and `"c"` holds a comma. */
  lemma CommaFreeExample(ps: seq<string>)
    requires ps == ["a", " b ", "c"]
    ensures forall i :: 0 <= i < |ps| ==> ',' !in ps[i]
  {
    forall i | 0 <= i < |ps| ensures ',' !in ps[i] {
      assert ps[i] == "a" || ps[i] == " b " || ps[i] == "c";
    }
  }

  /** One non-whitespace character is already trimmed. */
  lemma TrimOfOneCharacter(s: string)
    requires |s| == 1 && !IsWhitespace(s[0])
    ensures Trim(s) == s
  {
    assert TrimmedAt(s, s, 0, 1);
    TrimCharacterised(s, s);
  }

  /** One non-whitespace character between two whitespace characters trims to itself. */
  lemma TrimOfPaddedCharacter(s: string)
    requires |s| == 3 && IsWhitespace(s[0]) && !IsWhitespace(s[1]) && IsWhitespace(s[2])
    ensures Trim(s) == s[1..2]
  {
    assert TrimmedAt(s, s[1..2], 1, 2);
    TrimCharacterised(s, s[1..2]);
  }

  /** Trimming `" b "` gives `"b"`; `"a"` and `"c"` are already trimmed. */
  lemma TrimExamples(a: string, b: string, c: string)
    requires a == "a" && b == " b " && c == "c"
    ensures Trim(a) == "a" && Trim(b) == "b" && Trim(c) == "c"
  {
    TrimOfOneCharacter(a);
    TrimOfPaddedCharacter(b);
    TrimOfOneCharacter(c);
  }

  /** The dataset text `"a, b ,c"` is read as the datasets `a`, `b` and `c`. */
  lemma DatasetsExample(text: string, sent: seq<string>)
    requires text == "a, b ,c" && sent == Datasets(text)
    ensures |sent| == 3 && sent[0] == "a" && sent[1] == "b" && sent[2] == "c"
  {
    var ps: seq<string> :| ps == ["a", " b ", "c"];
    JoinExample(ps, text);
    CommaFreeExample(ps);
    DatasetsOfThreePieces(ps, text, sent);
    TrimExamples(ps[0], ps[1], ps[2]);
  }
}
