/** The application root: it owns the list of prayer items, seeds it, and
    changes it in one way, by raising an item's pray count. */
module App {
  import opened Types

  /** `prayers.map(item => item.id === id ? { ...item, prayCount: item.prayCount + 1 } : item)`. */
  function BumpPrayCount(prayers: seq<PrayerItem>, id: int): (r: seq<PrayerItem>)
    ensures |r| == |prayers|
    ensures forall k :: 0 <= k < |prayers| ==>
      && r[k].prayCount == prayers[k].prayCount + (if prayers[k].id == id then 1 else 0)
      && r[k].(prayCount := prayers[k].prayCount) == prayers[k]
  {
    if prayers == [] then []
    else
      var p := prayers[0];
      [if p.id == id then p.(prayCount := p.prayCount + 1) else p] + BumpPrayCount(prayers[1..], id)
  }

  /** An id that no item carries leaves the list as it was. */
  lemma BumpAbsent(prayers: seq<PrayerItem>, id: int)
    requires forall k :: 0 <= k < |prayers| ==> prayers[k].id != id
    ensures BumpPrayCount(prayers, id) == prayers
  {
    var r := BumpPrayCount(prayers, id);
    forall k | 0 <= k < |prayers| ensures r[k] == prayers[k] {
      assert r[k].(prayCount := prayers[k].prayCount) == prayers[k];
    }
  }

  /** `n` clicks on the same item. */
  function BumpTimes(prayers: seq<PrayerItem>, id: int, n: nat): seq<PrayerItem> {
    if n == 0 then prayers else BumpPrayCount(BumpTimes(prayers, id, n - 1), id)
  }

  /** `n` increments of one id add `n` to each item with that id and leave
      every other field, every other item, the length and the order alone. */
  lemma {:induction false} BumpTimesAddsN(prayers: seq<PrayerItem>, id: int, n: nat)
    ensures |BumpTimes(prayers, id, n)| == |prayers|
    ensures forall k :: 0 <= k < |prayers| ==>
      && BumpTimes(prayers, id, n)[k].prayCount == prayers[k].prayCount + (if prayers[k].id == id then n else 0)
      && BumpTimes(prayers, id, n)[k].(prayCount := prayers[k].prayCount) == prayers[k]
  {
    if n > 0 {
      BumpTimesAddsN(prayers, id, n - 1);
      var before := BumpTimes(prayers, id, n - 1);
      var after := BumpPrayCount(before, id);
      forall k | 0 <= k < |prayers|
        ensures after[k].prayCount == prayers[k].prayCount + (if prayers[k].id == id then n else 0)
        ensures after[k].(prayCount := prayers[k].prayCount) == prayers[k]
      {
        assert before[k].id == prayers[k].id by {
          assert before[k].(prayCount := prayers[k].prayCount) == prayers[k];
        }
        assert after[k].(prayCount := before[k].prayCount) == before[k];
      }
    }
  }

  /** A 400 x 300 cropped photo from the image host the seed items use. */
  function Unsplash(photo: string): (url: string)
    ensures "https://images.unsplash.com/photo-" <= url
  {
    "https://images.unsplash.com/photo-" + photo + "?w=400&h=300&fit=crop"
  }

  /** The items the wall starts with. */
  function SamplePrayers(): seq<PrayerItem> {
    [
      PrayerItem(1, Some("媽媽手術康復"), ["病人醫治", "家庭關係"],
                 "為媽媽手術後的恢復禱告，求主賜下力量與平安。",
                 "陳太", 5, "2026-02-02",
                 [Unsplash("1559757148-5c350d0d3c56")],
                 None, None),
      PrayerItem(2, Some("弟弟慢性病治療"), ["心理支持"],
                 "為弟弟長期的治療過程禱告，求主堅固他的信心與心靈。",
                 "林先生", 8, "2026-02-01",
                 [Unsplash("1438232992991-995b7058bbb3"), Unsplash("1441974231531-c6227db76b6e"), Unsplash("1522202176988-66273c2fd55f")],
                 None, None),
      PrayerItem(3, Some("孩子康復進展"), ["家庭關係"],
                 "孩子住院已一週，求主帶領治療順利，早日出院。",
                 "李太", 3, "2026-02-02",
                 [Unsplash("1522202176988-66273c2fd55f"), Unsplash("1560472354-b33ff0c44a43")],
                 None, None),
      PrayerItem(4, Some("癌症病友堅強面對治療"), ["病人醫治", "心理支持"],
                 "為正在進行化療的姊妹禱告，願主賜她平安與勇氣。",
                 "周姐妹", 6, "2026-02-02",
                 [Unsplash("1506905925346-21bda4d32df4"), Unsplash("1441974231531-c6227db76b6e")],
                 None, None),
      PrayerItem(5, Some("病中信心堅固"), ["癌症病患"],
                 "為在病中的弟兄禱告，求主加添信心與盼望。",
                 "張弟兄", 4, "2026-01-31",
                 [Unsplash("1521791136064-7986c2920216"), Unsplash("1511632765486-a01980e01a18")],
                 None, None),
      PrayerItem(6, Some("醫護人員力量更新"), ["病人醫治", "心理支持"],
                 "為照顧病人的醫護人員禱告，願主賜下身心的平安與力量。",
                 "黃醫生", 2, "2026-02-02",
                 [Unsplash("1554224155-6726b3ff858f"), Unsplash("1579621970563-ebec7560ff3e")],
                 None, None),
      PrayerItem(7, Some("長者康復與照顧"), ["病人醫治", "長期照護"],
                 "為長者手術後的康復與家人照顧的力量禱告。",
                 "何家", 7, "2026-02-02",
                 [Unsplash("1559757148-5c350d0d3c56"), Unsplash("1554224155-6726b3ff858f")],
                 None, None)
    ]
  }

  /** The seed ids are 1 to 7 in order, hence pairwise distinct; no seed count
      is negative and no seed item carries a status or comments. */
  lemma SampleFacts()
    ensures |SamplePrayers()| == 7
    ensures forall k :: 0 <= k < 7 ==> SamplePrayers()[k].id == k + 1
    ensures forall i, j :: 0 <= i < j < 7 ==> SamplePrayers()[i].id != SamplePrayers()[j].id
    ensures forall k :: 0 <= k < 7 ==> SamplePrayers()[k].prayCount >= 0
    ensures forall k :: 0 <= k < 7 ==> SamplePrayers()[k].status == None && SamplePrayers()[k].comments == None
  {
  }

  class Registry {
    var prayers: seq<PrayerItem>

    constructor ()
      ensures prayers == SamplePrayers()
    {
      prayers := SamplePrayers();
    }

    /** The pray button of an item. */
    method IncrementPrayCount(id: int)
      modifies this`prayers
      ensures prayers == BumpPrayCount(old(prayers), id)
    {
      prayers := BumpPrayCount(prayers, id);
    }
  }
}
