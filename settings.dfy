/** The shared settings document: top-level entries keyed by name, where a
    game's entry is a group of tunables and `version` / `lastUpdated` are
    scalars. */
module Settings {
  import opened Json

  datatype Entry = Field(value: Scalar) | Group(fields: Fields)

  type Doc = map<string, Entry>

  const LastUpdated := "lastUpdated"

  /** DEFAULT_SETTINGS; its `lastUpdated` is the time the module was loaded. */
  function DefaultSettings(loadTime: int): (d: Doc)
    ensures d.Keys == {"version", LastUpdated, "pg", "pp"}
  {
    map[
      "version" := Field(Str("2.0.0")),
      LastUpdated := Field(Num(loadTime)),
      "pg" := Group(map["baseWin" := Num(65), "bonusChance" := Num(25), "randomness" := Num(15)]),
      "pp" := Group(map["baseWin" := Num(60), "bonusChance" := Num(22), "volatility" := Num(25)])
    ]
  }

  /** What `{...current[game]}` spreads: the game's group, or nothing when
      the entry is missing or not a group. */
  function GroupOf(doc: Doc, game: string): (g: Fields)
    ensures game in doc && doc[game].Group? ==> g == doc[game].fields
    ensures game !in doc || doc[game].Field? ==> g == map[]
  {
    if game in doc && doc[game].Group? then doc[game].fields else map[]
  }

  /** updateSettings' edit of the document: the game's group shallow-merged
      with `partial` (the new values win), then `lastUpdated` set to `now`. */
  function Merge(doc: Doc, game: string, partial: Fields, now: int): (r: Doc)
    ensures r.Keys == doc.Keys + {game, LastUpdated}
    ensures r[LastUpdated] == Field(Num(now))
    ensures game != LastUpdated ==>
      && r[game].Group?
      && r[game].fields.Keys == GroupOf(doc, game).Keys + partial.Keys
      && (forall f :: f in partial ==> r[game].fields[f] == partial[f])
      && (forall f :: f in GroupOf(doc, game) && f !in partial ==> r[game].fields[f] == GroupOf(doc, game)[f])
    ensures forall k :: k in doc && k != game && k != LastUpdated ==> r[k] == doc[k]
  {
    doc[game := Group(GroupOf(doc, game) + partial)][LastUpdated := Field(Num(now))]
  }

  /** Repeating an update changes nothing further. */
  lemma MergeIdempotent(doc: Doc, game: string, partial: Fields, now: int)
    ensures Merge(Merge(doc, game, partial, now), game, partial, now) == Merge(doc, game, partial, now)
  {
    var once := Merge(doc, game, partial, now);
    if game != LastUpdated {
      assert GroupOf(once, game) + partial == GroupOf(once, game);
    }
  }

  /** Two updates of one game are one update with the later values winning. */
  lemma MergeTwice(doc: Doc, game: string, p1: Fields, p2: Fields, t1: int, t2: int)
    requires game != LastUpdated
    ensures Merge(Merge(doc, game, p1, t1), game, p2, t2) == Merge(doc, game, p1 + p2, t2)
  {
    var once := Merge(doc, game, p1, t1);
    assert GroupOf(once, game) + p2 == GroupOf(doc, game) + (p1 + p2);
  }

  /** Updates of two different games commute, apart from the time stamp,
      which is the later call's. */
  lemma MergeCommutes(doc: Doc, g1: string, g2: string, p1: Fields, p2: Fields, t1: int, t2: int)
    requires g1 != g2 && g1 != LastUpdated && g2 != LastUpdated
    ensures Merge(Merge(doc, g1, p1, t1), g2, p2, t2) == Merge(Merge(doc, g2, p2, t1), g1, p1, t2)
  {
    assert GroupOf(Merge(doc, g1, p1, t1), g2) == GroupOf(doc, g2);
    assert GroupOf(Merge(doc, g2, p2, t1), g1) == GroupOf(doc, g1);
  }

  /** Setting `pg.baseWin` to 70 on the defaults keeps the other `pg`
      tunables and the whole `pp` entry. */
  lemma BaseWinExample(loadTime: int, now: int)
    ensures var d := Merge(DefaultSettings(loadTime), "pg", map["baseWin" := Num(70)], now);
      && d["pg"] == Group(map["baseWin" := Num(70), "bonusChance" := Num(25), "randomness" := Num(15)])
      && d["pp"] == DefaultSettings(loadTime)["pp"]
      && d["version"] == Field(Str("2.0.0"))
      && d[LastUpdated] == Field(Num(now))
  {
    var pg := GroupOf(DefaultSettings(loadTime), "pg");
    assert pg + map["baseWin" := Num(70)] == map["baseWin" := Num(70), "bonusChance" := Num(25), "randomness" := Num(15)];
  }
}
