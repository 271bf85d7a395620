/** The frontend's records (`src/types/index.ts`) and its genre tables
    (`GENRE_MAP` and `genreLabels` in `src/lib/mockData.ts`). Times are
    milliseconds since the epoch, as `Date.getTime()` gives them. */
module FrontTypes {
  import opened Wrappers

  /** The keys of `GENRE_MAP` and `genreLabels`, in declaration order (the
      order `Object.keys` and `Object.entries` list them in). */
  const GenreKeys: seq<string> := ["food", "event", "scene", "store", "emergency", "other"]

  /** `GENRE_MAP`: a genre key to its numeric id. */
  const GenreMap: map<string, int> :=
    map["food" := 0, "event" := 1, "scene" := 2, "store" := 3, "emergency" := 4, "other" := 5]

  /** `genreLabels`: a genre key to its Japanese label. */
  const GenreLabels: map<string, string> :=
    map["food" := "グルメ", "event" := "イベント", "scene" := "景色", "store" := "お店",
        "emergency" := "緊急情報", "other" := "その他"]

  predicate IsGenreKey(key: string) { key in GenreKeys }

  /** A JavaScript object lookup `record[key]`: `undefined` when the key is
      absent. */
  function Lookup<V>(m: map<string, V>, key: string): (r: Option<V>)
    ensures r.Some? <==> key in m
    ensures r.Some? ==> r.value == m[key]
  {
    if key in m then Some(m[key]) else None
  }

  /** Both tables have exactly the six genre keys, `GENRE_MAP` numbers them
      by position, and no two genres share a label. */
  lemma GenreTables()
    ensures forall k :: k in GenreMap <==> IsGenreKey(k)
    ensures forall k :: k in GenreLabels <==> IsGenreKey(k)
    ensures forall i :: 0 <= i < |GenreKeys| ==> GenreMap[GenreKeys[i]] == i
    ensures forall k1, k2 :: k1 in GenreLabels && k2 in GenreLabels && GenreLabels[k1] == GenreLabels[k2] ==> k1 == k2
  {
    forall k1, k2 | k1 in GenreLabels && k2 in GenreLabels && GenreLabels[k1] == GenreLabels[k2]
      ensures k1 == k2
    {
      // The six labels already differ in their first character.
      assert GenreLabels[k1][0] == GenreLabels[k2][0];
    }
  }

  /** `Object.keys(genreLabels).indexOf(key)`: the position of the key, or
      -1 when it is not a genre. */
  function KeyIndex(key: string): (r: int)
    ensures -1 <= r < |GenreKeys|
    ensures r == -1 <==> !IsGenreKey(key)
    ensures r >= 0 ==> GenreKeys[r] == key
  {
    if key == "food" then 0
    else if key == "event" then 1
    else if key == "scene" then 2
    else if key == "store" then 3
    else if key == "emergency" then 4
    else if key == "other" then 5
    else -1
  }

  /** `Post` (posts table as the frontend holds it). `numView` is `None`
      when the server left it out. */
  datatype Post = Post(postId: int, placeId: int, userId: string, postDate: string, title: string,
                       text: string, postImage: seq<string>, numReaction: int, numView: Option<int>,
                       genreId: int)

  /** `Place`. */
  datatype Place = Place(placeId: int, numPost: int, latitude: real, longitude: real)

  /** `Block`: `blockerId` blocks `blockedId`. */
  datatype Block = Block(blockId: int, blockerId: string, blockedId: string)
}
