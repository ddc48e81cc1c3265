/** The movie upload script: every movie of the JSON file gives points with
    one unnamed vector per chunk, all uploaded in one call. */
module MovieIngest {
  import opened Common
  import opened ChunkPoints

  const COLLECTION: string := "movie_search"

  /** `movie["description"]`, the text that gets chunked. A movie without
      one raises `KeyError`, and one that is not a string cannot be
      tokenized: either stops the script. */
  function Description(movie: seq<Field>): Option<string> {
    match Get(movie, "description")
    case Some(Str(s)) => Some(s)
    case _ => None
  }

  predicate Describable(movies: seq<seq<Field>>) {
    forall i :: 0 <= i < |movies| ==> Description(movies[i]).Some?
  }

  /** The movies as chunking items: every point carries all of the movie's
      fields, and its description is what gets chunked. */
  function MovieItems(movies: seq<seq<Field>>): (r: seq<Item>)
    requires Describable(movies)
    ensures |r| == |movies|
  {
    seq(|movies|, i requires 0 <= i < |movies| => Item(movies[i], Description(movies[i]).value))
  }

  /** The one `upload_points` call and the count the script reports. */
  datatype Upload = Upload(collection: string, points: seq<Point>, reported: int)

  /** `ingest_data(json_path, collection_name)` on the parsed file `movies`.
      Both arguments are ignored: the file read and the collection written
      are fixed. Nothing is uploaded when a movie has no usable
      description; otherwise all points go to "movie_search" at once, and
      the reported count is their number. */
  method IngestMovies(sp: Splitters, movies: seq<seq<Field>>, jsonPath: string, collectionName: string)
    returns (r: Option<Upload>)
    ensures r.Some? <==> Describable(movies)
    ensures r.Some? ==>
      r.value == Upload(COLLECTION, AllPoints(sp, MovieItems(movies), false), |AllPoints(sp, MovieItems(movies), false)|)
  {
    var points: seq<Point> := [];
    var idx := 0;
    var i := 0;
    while i < |movies|
      invariant 0 <= i <= |movies|
      invariant Describable(movies[..i])
      invariant points == AllPoints(sp, MovieItems(movies[..i]), false) && idx == |points|
    {
      var movie := movies[i];
      var text := Description(movie);
      if text.None? {
        assert !Describable(movies);
        return None;
      }
      var it := Item(movie, text.value);
      ghost var before := MovieItems(movies[..i]);
      assert movies[..i + 1] == movies[..i] + [movie];
      assert MovieItems(movies[..i + 1]) == before + [it];
      AllPointsSnoc(sp, before, it, false);
      points, idx := AppendItem(sp, points, idx, it, false);
      i := i + 1;
    }
    assert movies[..i] == movies;
    r := Some(Upload(COLLECTION, points, idx));
  }

  /** Every point created for movie `j` carries all of that movie's fields
      except `chunk` and `chunking`, which hold its own chunk and strategy;
      its vector is the collection's single unnamed one. */
  lemma MoviePoint(sp: Splitters, movies: seq<seq<Field>>, j: int, k: int)
    requires Describable(movies) && 0 <= j < |movies|
    requires Ends(sp, MovieItems(movies), false)[j] <= k < Ends(sp, MovieItems(movies), false)[j + 1]
    ensures k < |AllPoints(sp, MovieItems(movies), false)|
    ensures var p := AllPoints(sp, MovieItems(movies), false)[k];
      && (forall key :: key != "chunk" && key != "chunking" ==> Get(Payload(p), key) == Get(movies[j], key))
      && Get(Payload(p), "chunk") == Some(Str(p.chunk))
      && Get(Payload(p), "chunking") == Some(Str(p.chunking))
      && p.vector.None?
  {
    var items := MovieItems(movies);
    PointOwner(sp, items, false, j, k);
    var e := Ends(sp, items, false)[j];
    ItemLayout(sp, items[j], false, e);
  }
}
