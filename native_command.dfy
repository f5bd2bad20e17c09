/** The REPL's command splitter (XSS.Runtime/Utility/NativeCommand.cs): a line such as
    ".load a b" is trimmed, split on single spaces, and its first piece loses its first
    character to become the verb; the other pieces are the parameters. */
module NativeCommand {
  import opened DotNetText

  datatype Command = Command(verb: string, parameters: seq<string>)

  /** The constructor stores the verb and the parameters as given. */
  function NewCommand(verb: string, parameters: seq<string>): (c: Command)
    ensures c.verb == verb && c.parameters == parameters
  {
    Command(verb, parameters)
  }

  /** The first piece of a split is empty exactly when the text is empty or starts with the
      separator. */
  lemma FirstPieceEmpty(s: string, sep: char)
    ensures Split(s, sep)[0] == [] <==> s == [] || s[0] == sep
  {
    var pieces := Split(s, sep);
    if |pieces| > 1 {
      assert s == pieces[0] + [sep] + Join(pieces[1..], sep);
      if pieces[0] != [] {
        assert s[0] == pieces[0][0];
        assert s[0] != sep by { assert pieces[0][0] in pieces[0]; }
      }
    } else if pieces[0] != [] {
      assert s[0] == pieces[0][0];
      assert pieces[0][0] in pieces[0];
    }
  }

  /** `Parse`: the caller only passes a line that is not blank; a blank one would make the
      removal of the first character fail. */
  function Parse(cmd: string): (c: Command)
    requires |Trim(cmd)| > 0
    ensures |c.parameters| == Count(Trim(cmd), ' ')
    ensures ' ' !in c.verb && forall i :: 0 <= i < |c.parameters| ==> ' ' !in c.parameters[i]
    ensures Join([[Trim(cmd)[0]] + c.verb] + c.parameters, ' ') == Trim(cmd)
  {
    var raws := Split(Trim(cmd), ' ');
    SplitLine(Trim(cmd));
    Command(raws[0][1..], raws[1..])
  }

  /** The pieces of a line that does not start with a space: the first one starts with the
      line's first character, and the line is that character, the rest of the first piece
      and the other pieces, joined. */
  lemma SplitLine(line: string)
    requires |line| > 0 && line[0] != ' '
    ensures var raws := Split(line, ' ');
            raws[0] != [] && ' ' !in raws[0][1..]
            && Join([[line[0]] + raws[0][1..]] + raws[1..], ' ') == line
  {
    var raws := Split(line, ' ');
    FirstPieceEmpty(line, ' ');
    assert raws[0][0] == line[0] by {
      if |raws| > 1 {
        assert line == raws[0] + [' '] + Join(raws[1..], ' ');
      }
    }
    assert raws[0] == [raws[0][0]] + raws[0][1..];
    assert ' ' !in raws[0][1..] by { assert forall x :: x in raws[0][1..] ==> x in raws[0]; }
    assert raws == [raws[0]] + raws[1..];
  }

  /** Trimming leaves a line alone when neither end is white space. */
  lemma TrimmedLine(s: string)
    requires |s| > 0 && !IsWhiteSpace(s[0]) && !IsWhiteSpace(s[|s| - 1])
    ensures Trim(s) == s
  {
  }

  /** Parsing a line built from a prefix character, a verb and parameters, none holding a space,
      gives back that verb and those parameters, in order; an empty parameter stands for a run
      of two spaces, and a tab in a piece stays in it. */
  lemma {:induction false} ParseJoin(prefix: char, verb: string, parameters: seq<string>)
    requires !IsWhiteSpace(prefix) && ' ' !in verb
    requires forall i :: 0 <= i < |parameters| ==> ' ' !in parameters[i]
    requires var line := Join([[prefix] + verb] + parameters, ' '); !IsWhiteSpace(line[|line| - 1])
    ensures Parse(Join([[prefix] + verb] + parameters, ' ')) == Command(verb, parameters)
  {
    var pieces := [[prefix] + verb] + parameters;
    var line := Join(pieces, ' ');
    assert line[0] == prefix by {
      if |pieces| > 1 { assert line == pieces[0] + [' '] + Join(pieces[1..], ' '); }
    }
    TrimmedLine(line);
    assert ' ' !in pieces[0] by {
      assert prefix != ' ';
      assert forall x :: x in pieces[0] ==> x == prefix || x in verb;
    }
    SplitJoin(pieces, ' ');
    assert Split(line, ' ') == pieces;
    assert pieces[0][1..] == verb && pieces[1..] == parameters;
  }
}
