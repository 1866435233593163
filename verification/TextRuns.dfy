/** Splitting text into words: the maximal runs of characters of one kind. This is Go's
    `strings.FieldsFunc` and, for characters that are not white space, Python's `str.split()`. */
module TextRuns {
  import opened SearchTypes
  import opened Seqs

  function Runs(keep: char -> bool, text: string): seq<string> {
    if text == "" then []
    else GrowRuns(keep, text[..|text| - 1], text[|text| - 1], Runs(keep, text[..|text| - 1]))
  }

  /** What one more character does to the runs of a text. */
  function GrowRuns(keep: char -> bool, text: string, c: char, ws: seq<string>): seq<string> {
    if !keep(c) then ws
    else if text == "" || !keep(text[|text| - 1]) || ws == [] then ws + [[c]]
    else ws[..|ws| - 1] + [ws[|ws| - 1] + [c]]
  }

  predicate Kept(keep: char -> bool, w: string) {
    w != "" && forall i :: 0 <= i < |w| ==> keep(w[i])
  }

  predicate AllKept(keep: char -> bool, ws: seq<string>) {
    forall i :: 0 <= i < |ws| ==> Kept(keep, ws[i])
  }

  predicate CharsFrom(text: string, ws: seq<string>) {
    forall i, j :: 0 <= i < |ws| && 0 <= j < |ws[i]| ==> ws[i][j] in text
  }

  lemma RunsStep(keep: char -> bool, text: string, c: char)
    ensures Runs(keep, text + [c]) == GrowRuns(keep, text, c, Runs(keep, text))
  {
    assert (text + [c])[..|text|] == text;
  }

  lemma GrowKeeps(keep: char -> bool, text: string, c: char, ws: seq<string>)
    requires AllKept(keep, ws) && CharsFrom(text, ws)
    ensures AllKept(keep, GrowRuns(keep, text, c, ws)) && CharsFrom(text + [c], GrowRuns(keep, text, c, ws))
  {
    var more := GrowRuns(keep, text, c, ws);
    forall i | 0 <= i < |more|
      ensures Kept(keep, more[i]) && forall j :: 0 <= j < |more[i]| ==> more[i][j] in text + [c]
    {
      if i < |ws| {
        assert Kept(keep, ws[i]);
      }
    }
  }

  /** Runs are non-empty, of kept characters, and add none to the text's. */
  lemma {:induction false} RunsAreKept(keep: char -> bool, text: string)
    ensures AllKept(keep, Runs(keep, text)) && CharsFrom(text, Runs(keep, text))
  {
    if text != "" {
      var init, c := text[..|text| - 1], text[|text| - 1];
      RunsAreKept(keep, init);
      GrowKeeps(keep, init, c, Runs(keep, init));
      assert text == init + [c];
    }
  }

  // ---- reading joined words back ---------------------------------------------------------

  /** A run grows by the kept characters that follow it. */
  lemma RunGrows(keep: char -> bool, text: string, ws: seq<string>, w: string, c: char)
    requires keep(c) && text != "" && keep(text[|text| - 1]) && Runs(keep, text) == ws + [w]
    ensures Runs(keep, text + [c]) == ws + [w + [c]]
  {
    RunsStep(keep, text, c);
    assert (ws + [w])[..|ws|] == ws;
  }

  /** A word after a blank, or after nothing, is one more run. */
  lemma {:induction false} RunsSnoc(keep: char -> bool, text: string, w: string)
    requires Kept(keep, w) && (text == "" || !keep(text[|text| - 1]))
    ensures Runs(keep, text + w) == Runs(keep, text) + [w]
  {
    var init, c := w[..|w| - 1], w[|w| - 1];
    assert w == init + [c];
    if init == "" {
      RunsStep(keep, text, c);
    } else {
      RunsSnoc(keep, text, init);
      RunGrows(keep, text + init, Runs(keep, text), init, c);
      assert text + w == text + init + [c];
    }
  }

  lemma BlankEndsRun(keep: char -> bool, text: string)
    requires !keep(' ')
    ensures Runs(keep, text + " ") == Runs(keep, text)
  {
    assert text + " " == text + [' '];
    RunsStep(keep, text, ' ');
  }

  lemma JoinSnoc(init: seq<string>, last: string)
    ensures Join(init + [last], " ") == if init == [] then last else Join(init, " ") + " " + last
  {
    assert (init + [last])[..|init|] == init;
  }

  lemma {:induction false} RunsOfJoin(keep: char -> bool, ws: seq<string>)
    requires !keep(' ') && AllKept(keep, ws)
    ensures Runs(keep, Join(ws, " ")) == ws
  {
    if ws != [] {
      var init, last := ws[..|ws| - 1], ws[|ws| - 1];
      assert ws == init + [last] && Kept(keep, last);
      RunsOfJoin(keep, init);
      JoinSnoc(init, last);
      if init == [] {
        RunsSnoc(keep, "", last);
        assert "" + last == last;
      } else {
        BlankEndsRun(keep, Join(init, " "));
        RunsSnoc(keep, Join(init, " ") + " ", last);
      }
    }
  }

  /** Joining adds no character but blanks. */
  lemma {:induction false} CharsOfJoin(ws: seq<string>, c: char)
    requires c in Join(ws, " ")
    ensures c == ' ' || exists w :: w in ws && c in w
  {
    if |ws| == 1 {
      assert ws[0] in ws;
    } else if |ws| > 1 {
      var init, last := ws[..|ws| - 1], ws[|ws| - 1];
      assert last in ws;
      if c != ' ' && c !in last {
        CharsOfJoin(init, c);
        var w :| w in init && c in w;
        assert w in ws;
      }
    }
  }

  // ---- words take room -------------------------------------------------------------------

  /** The room words take, each with one blank after it. */
  function Room(ws: seq<string>): nat {
    if ws == [] then 0 else Room(ws[..|ws| - 1]) + |ws[|ws| - 1]| + 1
  }

  lemma {:induction false} JoinTakesRoom(ws: seq<string>)
    ensures |Join(ws, " ")| == if ws == [] then 0 else Room(ws) - 1
  {
    if |ws| > 1 {
      JoinTakesRoom(ws[..|ws| - 1]);
    }
  }

  /** Runs set apart by single blanks are no longer than the text they come from. */
  lemma {:induction false} RunsFit(keep: char -> bool, text: string)
    ensures Room(Runs(keep, text)) <= |text| + (if text != "" && keep(text[|text| - 1]) then 1 else 0)
  {
    if text != "" {
      RunsFit(keep, text[..|text| - 1]);
    }
  }

  lemma {:induction false} RoomWithout(ws: seq<string>, i: nat)
    requires i < |ws|
    ensures Room(ws) == Room(ws[..i] + ws[i + 1..]) + |ws[i]| + 1
  {
    var last := |ws| - 1;
    if i == last {
      assert ws[..i] + ws[i + 1..] == ws[..last];
    } else {
      RoomWithout(ws[..last], i);
      var cut := ws[..i] + ws[i + 1..];
      assert cut[..|cut| - 1] == ws[..last][..i] + ws[..last][i + 1..];
    }
  }

  /** Distinct words picked from a list take no more room than the list. */
  lemma {:induction false} PickedTakeLess(picked: seq<string>, ws: seq<string>)
    requires forall w :: w in picked ==> w in ws
    requires NoRepeats(picked)
    ensures Room(picked) <= Room(ws)
  {
    if picked != [] {
      var init, last := picked[..|picked| - 1], picked[|picked| - 1];
      assert last in picked && NoRepeats(init);
      var i :| 0 <= i < |ws| && ws[i] == last;
      var rest := ws[..i] + ws[i + 1..];
      forall w | w in init
        ensures w in rest
      {
        assert w in picked && w in ws && w != last;
      }
      PickedTakeLess(init, rest);
      RoomWithout(ws, i);
    }
  }
}
