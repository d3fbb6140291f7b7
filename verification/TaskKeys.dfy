/** The text under which the request scheduler of internal/web/static/app.js files a task. */
module TaskKeys {
  import Decimal
  import opened RequestScheduler

  /** taskKey: how the program writes a key. */
  function TaskKey(k: Key): string {
    (if k.seqNo < 0 then "-" + Decimal.Show(-k.seqNo) else Decimal.Show(k.seqNo)) + ['\0'] + k.path
  }

  /** The written keys tell tasks apart exactly as the pair does, whatever characters the path holds. */
  lemma TaskKeyExact(a: Key, b: Key)
    ensures TaskKey(a) == TaskKey(b) <==> a == b
  {
    var m, n := if a.seqNo < 0 then -a.seqNo else a.seqNo, if b.seqNo < 0 then -b.seqNo else b.seqNo;
    Decimal.ShowPlain(m, '\0');
    Decimal.ShowPlain(n, '\0');
    if TaskKey(a) == TaskKey(b) {
      var s := if a.seqNo < 0 then "-" + Decimal.Show(m) else Decimal.Show(m);
      var t := if b.seqNo < 0 then "-" + Decimal.Show(n) else Decimal.Show(n);
      Decimal.CutAtSeparator(s, t, a.path, b.path, '\0');
      assert Decimal.IsDigit(Decimal.Show(m)[0]) && Decimal.IsDigit(Decimal.Show(n)[0]);
      assert a.seqNo < 0 <==> s[0] == '-';
      assert b.seqNo < 0 <==> t[0] == '-';
      assert Decimal.Show(m) == Decimal.Show(n) by {
        if a.seqNo < 0 {
          assert s[1..] == Decimal.Show(m) && t[1..] == Decimal.Show(n);
        }
      }
      Decimal.ShowInjective(m, n);
    }
  }
}
