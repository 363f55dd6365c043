/** The loops of packages/sql-guard/src/index.ts, each against what it must decide. */
module SqlGuardLoops {
  import opened Text
  import opened SqlLexer
  import opened SqlSplit
  import opened SqlGuard

  method ReadDottedName(ps: seq<Piece>, i: nat) returns (r: Option<Dotted>)
    ensures r == DottedName(ps, i)
  {
    if i >= |ps| || !IsName(ps[i]) {
      return None;
    }
    var parts := [ps[i].shown];
    var j := i + 1;
    while j + 1 < |ps| && IsMark(ps[j], ".") && IsName(ps[j + 1])
      invariant i < j <= |ps|
      invariant [ps[i].shown] + DottedTail(ps, i + 1).0 == parts + DottedTail(ps, j).0
      invariant DottedTail(ps, i + 1).1 == DottedTail(ps, j).1
    {
      ghost var rest := DottedTail(ps, j + 2).0;
      assert parts + ([ps[j + 1].shown] + rest) == (parts + [ps[j + 1].shown]) + rest;
      parts := parts + [ps[j + 1].shown];
      j := j + 2;
    }
    assert parts + [] == parts;
    return Some(Dotted(Join(parts, "."), j));
  }

  method FindNameListStart(ps: seq<Piece>) returns (i: nat)
    ensures i == NameListStart(ps)
  {
    hide IsSkip;
    i := 1;
    while i < |ps| && ps[i].kind == Word && IsSkip(ps[i].value)
      invariant SkipFrom(ps, 1) == SkipFrom(ps, i)
      decreases |ps| - i
    {
      i := i + 1;
    }
  }

  method ReadObjectNames(ps: seq<Piece>) returns (names: seq<string>)
    ensures names == ObjectNames(ps)
  {
    hide DottedName, NameListStart, NamesFrom;
    names := [];
    var i := FindNameListStart(ps);
    while true
      invariant NamesFrom(ps, NameListStart(ps)) == names + NamesFrom(ps, i)
      decreases |ps| - i
    {
      NamesStep(ps, i, names);
      var got := ReadDottedName(ps, i);
      if got.None? {
        break;
      }
      names := names + [got.value.name];
      i := got.value.next;
      if i >= |ps| || !IsMark(ps[i], ",") {
        break;
      }
      i := i + 1;
    }
  }

  lemma NamesStep(ps: seq<Piece>, i: nat, names: seq<string>)
    ensures DottedName(ps, i).None? ==> names + NamesFrom(ps, i) == names
    ensures DottedName(ps, i).Some? ==>
              var got := DottedName(ps, i).value;
              if got.next < |ps| && IsMark(ps[got.next], ",")
              then names + NamesFrom(ps, i) == (names + [got.name]) + NamesFrom(ps, got.next + 1)
              else names + NamesFrom(ps, i) == names + [got.name]
  {
    hide DottedName;
  }

  method FindAlterActions(ps: seq<Piece>) returns (starts: seq<nat>)
    ensures starts == AlterActions(ps)
  {
    var at := FindNameListStart(ps);
    var named := ReadDottedName(ps, at);
    hide DottedName, NameListStart, IsMark;
    if named.None? {
      return [];
    }
    starts := [named.value.next];
    var depth: nat := 0;
    for j := named.value.next to |ps|
      invariant depth == Depth(ps, named.value.next, j)
      invariant starts == ActionsUpTo(ps, named.value.next, j)
    {
      if IsMark(ps[j], "(") {
        depth := depth + 1;
        assert !IsMark(ps[j], ",") by { OneMark(ps[j]); }
      } else if IsMark(ps[j], ")") {
        depth := if depth > 0 then depth - 1 else 0;
        assert !IsMark(ps[j], ",") by { OneMark(ps[j]); }
      } else if depth == 0 && IsMark(ps[j], ",") {
        starts := starts + [j + 1];
      }
    }
  }

  lemma OneMark(p: Piece)
    ensures IsMark(p, "(") || IsMark(p, ")") ==> !IsMark(p, ",")
    ensures IsMark(p, "(") ==> !IsMark(p, ")")
    ensures IsMark(p, "(") || IsMark(p, ")") || IsMark(p, ",") ==> p.kind != Word
  {
    assert "("[0] != ","[0] && ")"[0] != ","[0] && "("[0] != ")"[0];
  }

  method FindTopLevelWhere(ps: seq<Piece>) returns (found: bool)
    ensures found == HasTopLevelWhere(ps)
  {
    hide IsMark;
    var depth: nat := 0;
    for k := 0 to |ps|
      invariant depth == Depth(ps, 0, k)
      invariant forall j | 0 <= j < k :: !(TopLevel(ps, j) && IsWordPiece(ps[j], "WHERE"))
    {
      OneMark(ps[k]);
      if IsMark(ps[k], "(") {
        depth := depth + 1;
      } else if IsMark(ps[k], ")") {
        depth := if depth > 0 then depth - 1 else 0;
      } else if depth == 0 && IsWordPiece(ps[k], "WHERE") {
        assert TopLevel(ps, k);
        return true;
      }
    }
    return false;
  }

  method DecideLimitable(ps: seq<Piece>) returns (limitable: bool)
    ensures limitable == IsLimitable(ps)
  {
    hide IsMark, EndsLimitable;
    if Lead(ps) != "SELECT" {
      return false;
    }
    var depth: nat := 0;
    for k := 0 to |ps|
      invariant depth == Depth(ps, 0, k)
      invariant forall j | 0 <= j < k :: TopLevel(ps, j) && ps[j].kind == Word ==> !EndsLimitable(ps[j].value)
    {
      OneMark(ps[k]);
      if IsMark(ps[k], "(") {
        depth := depth + 1;
      } else if IsMark(ps[k], ")") {
        depth := if depth > 0 then depth - 1 else 0;
      } else if depth == 0 && ps[k].kind == Word {
        if EndsLimitable(ps[k].value) {
          assert TopLevel(ps, k);
          return false;
        }
      }
    }
    return true;
  }

  method FindGrantTarget(ps: seq<Piece>) returns (r: Option<string>)
    ensures r == GrantTarget(ps)
  {
    hide IsMark, IsSkip, IsGrantNoise, DottedName;
    var depth: nat := 0;
    for i := 0 to |ps|
      invariant depth == Depth(ps, 0, i)
      invariant GrantTargetFrom(ps, 0) == GrantTargetFrom(ps, i)
    {
      OneMark(ps[i]);
      if IsMark(ps[i], "(") {
        depth := depth + 1;
      } else if IsMark(ps[i], ")") {
        depth := if depth > 0 then depth - 1 else 0;
      } else if depth == 0 && IsWordPiece(ps[i], "ON") {
        var j := i + 1;
        var plural := WordAt(ps, j, "ALL");
        while j < |ps| && ps[j].kind == Word && (IsSkip(ps[j].value) || IsGrantNoise(ps[j].value))
          invariant NoiseFrom(ps, i + 1) == NoiseFrom(ps, j)
          decreases |ps| - j
        {
          j := j + 1;
        }
        var got := ReadDottedName(ps, j);
        if got.None? {
          return None;
        }
        return Some(if plural then "everything in " + got.value.name else got.value.name);
      }
    }
    return None;
  }

  method FindGrantee(ps: seq<Piece>) returns (r: Option<Grantee>)
    ensures r == GranteeOf(ps)
  {
    hide IsMark, GrantsOnSchema, AfterTo;
    var onSchema := FindOnSchema(ps);
    if onSchema {
      return None;
    }
    assert !AfterTo(ps, 0) by { NothingBeforeStart(ps); }
    var depth: nat, afterTo := 0, false;
    for k := 0 to |ps|
      invariant depth == Depth(ps, 0, k)
      invariant afterTo == AfterTo(ps, k)
      invariant FirstExposed(ps, 0) == FirstExposed(ps, k)
    {
      var t := ps[k];
      OneMark(t);
      AfterToStep(ps, k);
      if IsMark(t, "(") {
        depth := depth + 1;
        assert ExposedBy(ps, k).None? by { MarkExposesNothing(ps, k); }
      } else if IsMark(t, ")") {
        depth := if depth > 0 then depth - 1 else 0;
        assert ExposedBy(ps, k).None? by { MarkExposesNothing(ps, k); }
      } else if depth == 0 && t.kind == Word {
        if t.value == "TO" {
          afterTo := true;
          continue;
        }
        if afterTo {
          if t.value == "PUBLIC" {
            return Some(Public);
          }
          if t.value == "ANON" {
            return Some(Anon);
          }
        }
      } else if depth == 0 && afterTo && t.kind == Ident {
        if t.value == "\"anon\"" {
          return Some(Anon);
        }
      }
    }
    return None;
  }

  lemma NothingBeforeStart(ps: seq<Piece>)
    ensures !AfterTo(ps, 0)
  {
  }

  method FindOnSchema(ps: seq<Piece>) returns (found: bool)
    ensures found == GrantsOnSchema(ps)
  {
    var i: nat := 0;
    while i + 1 < |ps|
      invariant forall j | 0 <= j < i && j < |ps| - 1 :: !(IsWordPiece(ps[j], "ON") && IsWordPiece(ps[j + 1], "SCHEMA"))
    {
      if IsWordPiece(ps[i], "ON") && IsWordPiece(ps[i + 1], "SCHEMA") {
        return true;
      }
      i := i + 1;
    }
    return false;
  }

  lemma AfterToStep(ps: seq<Piece>, k: nat)
    requires k < |ps|
    ensures AfterTo(ps, k + 1) == (AfterTo(ps, k) || (TopLevel(ps, k) && IsWordPiece(ps[k], "TO")))
  {
    hide Depth;
  }

  lemma MarkExposesNothing(ps: seq<Piece>, k: nat)
    requires k < |ps| && (IsMark(ps[k], "(") || IsMark(ps[k], ")"))
    ensures ExposedBy(ps, k).None?
  {
  }

  method WeighActions(ps: seq<Piece>) returns (e: Effects)
    ensures e == EffectsOf(ps, AlterActions(ps))
  {
    hide AlterActions, AlterDropAt;
    var starts := FindAlterActions(ps);
    var columns, constraints, unnamed := [], [], false;
    for k := 0 to |starts|
      invariant Effects(columns, constraints, unnamed) == EffectsOf(ps, starts[..k])
    {
      var at := starts[k];
      assert starts[..k + 1][..k] == starts[..k];
      if !WordAt(ps, at, "DROP") {
        continue;
      }
      var action := AlterDropAt(ps, at);
      if action.Other? {
        continue;
      }
      if action.name.None? {
        unnamed := true;
        continue;
      }
      if action.Column? {
        columns := columns + [action.name.value];
      } else {
        constraints := constraints + [action.name.value];
      }
    }
    assert starts[..|starts|] == starts;
    e := Effects(columns, constraints, unnamed);
  }

  method DecideDanger(ps: seq<Piece>) returns (v: Verdict)
    ensures v == DangerOf(ps)
  {
    hide HasTopLevelWhere, ObjectNames, EffectsOf, AlterActions, GranteeOf, GrantTarget;
    var command := Lead(ps);
    var names := ReadObjectNames(ps);
    var subject := if names == [] then None else Some(names[0]);
    if command == "DROP" {
      if WordAt(ps, 1, "TABLE") || WordAt(ps, 1, "SCHEMA") {
        return Verdict(if names == [] then Confirm else TypeName, subject, names);
      }
      return Verdict(Confirm, subject, []);
    }
    if command == "ALTER" {
      var e := WeighActions(ps);
      if e.columns != [] {
        return Verdict(TypeName, subject, e.columns);
      }
      if e.constraints != [] || e.unnamed {
        return Verdict(Confirm, subject, []);
      }
      return Verdict(Safe, subject, []);
    }
    if command == "GRANT" {
      var grantee := FindGrantee(ps);
      if grantee.None? {
        return Verdict(Safe, subject, []);
      }
      var target := FindGrantTarget(ps);
      return Verdict(Confirm, target, []);
    }
    if command == "TRUNCATE" {
      return Verdict(Confirm, subject, []);
    }
    if command == "DELETE" || command == "UPDATE" {
      var qualified := FindTopLevelWhere(ps);
      return Verdict(if qualified then Safe else Confirm, subject, []);
    }
    return Verdict(Safe, subject, []);
  }

  method ClassifyStatement(s: Statement) returns (c: Classified)
    ensures c == ClassifyOne(s)
  {
    hide DangerOf, IsLimitable;
    var ps := Pieces(s);
    var v := DecideDanger(ps);
    var limitable := DecideLimitable(ps);
    c := Classified(s.sql, Lead(ps), v.danger, v.subject, v.names, limitable, ControlsTransaction(Lead(ps)));
  }

  method ClassifyScript(sql: string) returns (script: Script)
    ensures script == Classify(sql)
  {
    hide ClassifyOne, Statements, ScriptOf;
    var statements := Split(sql);
    var classified := [];
    for k := 0 to |statements|
      invariant |classified| == k
      invariant forall i | 0 <= i < k :: classified[i] == ClassifyOne(statements[i])
    {
      var c := ClassifyStatement(statements[k]);
      classified := classified + [c];
    }
    assert classified == ClassifyEach(statements);
    script := ScriptOf(classified);
  }
}
