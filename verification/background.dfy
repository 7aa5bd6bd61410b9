/** The parallax background: an ordered list of layers, each an image scrolled
    at its own speed. `update` advances every loaded layer's offset and wraps it
    modulo the image width; `render` tiles each loaded layer across the viewport;
    `load` resolves each layer's image by trying candidate folders in order. */
module Background {
  import opened JsMath

  datatype ImageData = ImageData(width: int, height: int)

  /** A decoded image; its natural width is positive. */
  type Image = d: ImageData | d.width > 0 witness ImageData(1, 1)

  /** The browser's image loader: the image a URL decodes to (its `onload`),
      or None when it fails (its `onerror`). */
  type Fetch = string -> Option<Image>

  datatype Layer = Layer(src: string, speed: real, img: Option<Image>, offset: real)

  /** A successful load: the image and the URL it came from. */
  datatype Found = Found(img: Image, url: string)

  /** One `drawImage(img, x, y)` call of `render`. */
  datatype Tile = Tile(img: Image, x: int, y: int)

  /** Height of the ground strip the layers and the player stand on. */
  const GroundHeight: int := 80

  /** The three layers the scroller starts with, all unloaded at offset 0. */
  function InitialLayers(): (ls: seq<Layer>)
    ensures |ls| == 3
    ensures forall i :: 0 <= i < |ls| ==> ls[i].img.None? && ls[i].offset == 0.0
  {
    [ Layer("../src/images/nature 3/2.png", 0.15, None, 0.0),
      Layer("../src/images/nature 3/2.png", 0.5, None, 0.0),
      Layer("../src/images/nature 3/3.png", 0.15, None, 0.0) ]
  }

  // ---------------------------------------------------------------------------
  // Candidate-folder search

  /** The first of `folders[i..]` from which `name` loads. */
  function FirstFound(name: string, folders: seq<string>, i: nat, fetch: Fetch): Option<Found>
    requires i <= |folders|
    decreases |folders| - i
  {
    if i == |folders| then None
    else match fetch(folders[i] + name)
      case Some(img) => Some(Found(img, folders[i] + name))
      case None => FirstFound(name, folders, i + 1, fetch)
  }

  /** The search fails exactly when no candidate folder loads. */
  lemma {:induction false} FirstFoundNone(name: string, folders: seq<string>, i: nat, fetch: Fetch)
    requires i <= |folders|
    ensures FirstFound(name, folders, i, fetch).None? <==>
            forall j :: i <= j < |folders| ==> fetch(folders[j] + name).None?
    decreases |folders| - i
  {
    if i < |folders| {
      FirstFoundNone(name, folders, i + 1, fetch);
    }
  }

  /** When folder `k` is the first that loads, the search returns `folders[k] + name`
      and the image loaded from it. */
  lemma {:induction false} FirstFoundAt(name: string, folders: seq<string>, i: nat, fetch: Fetch, k: nat)
    requires i <= k < |folders|
    requires fetch(folders[k] + name).Some?
    requires forall j :: i <= j < k ==> fetch(folders[j] + name).None?
    ensures FirstFound(name, folders, i, fetch) == Some(Found(fetch(folders[k] + name).value, folders[k] + name))
    decreases k - i
  {
    if i < k {
      FirstFoundAt(name, folders, i + 1, fetch, k);
    }
  }

  /** `loadFromFolders`: requests `folders[0] + name`, `folders[1] + name`, ... and
      stops at the first that loads. `tried` lists the URLs requested, in order. */
  method LoadFromFolders(name: string, folders: seq<string>, fetch: Fetch) returns (res: Option<Found>, tried: seq<string>)
    ensures res == FirstFound(name, folders, 0, fetch)
    ensures |tried| <= |folders|
    ensures forall j :: 0 <= j < |tried| ==> tried[j] == folders[j] + name
    ensures forall j :: 0 <= j < |tried| - 1 ==> fetch(tried[j]).None?
    ensures res.None? ==> |tried| == |folders| && forall j :: 0 <= j < |tried| ==> fetch(tried[j]).None?
    ensures res.Some? ==> |tried| > 0 && res.value.url == tried[|tried| - 1] && fetch(res.value.url) == Some(res.value.img)
  {
    var i := 0;
    tried := [];
    while i < |folders|
      invariant i <= |folders| && |tried| == i
      invariant forall j :: 0 <= j < i ==> tried[j] == folders[j] + name && fetch(tried[j]).None?
      invariant FirstFound(name, folders, i, fetch) == FirstFound(name, folders, 0, fetch)
    {
      var url := folders[i] + name;
      i := i + 1;
      tried := tried + [url];
      var img := fetch(url);
      if img.Some? {
        res := Some(Found(img.value, url));
        return;
      }
    }
    res := None;
  }

  /** A layer after `load`: its image is set when some folder loads its `src`,
      and otherwise left as it was. */
  function LoadedLayer(l: Layer, folders: seq<string>, fetch: Fetch): Layer
  {
    match FirstFound(l.src, folders, 0, fetch)
    case Some(f) => l.(img := Some(f.img))
    case None => l
  }

  /** Every layer of a list after `load`, in order. */
  function LoadedLayers(ls: seq<Layer>, folders: seq<string>, fetch: Fetch): seq<Layer>
  {
    seq(|ls|, i requires 0 <= i < |ls| => LoadedLayer(ls[i], folders, fetch))
  }

  lemma LoadedLayerSpec(l: Layer, folders: seq<string>, fetch: Fetch)
    ensures var r := LoadedLayer(l, folders, fetch);
      r.src == l.src && r.speed == l.speed && r.offset == l.offset &&
      ((exists j :: 0 <= j < |folders| && fetch(folders[j] + l.src).Some?) ==> r.img.Some?) &&
      ((forall j :: 0 <= j < |folders| ==> fetch(folders[j] + l.src).None?) ==> r.img == l.img)
  {
    FirstFoundNone(l.src, folders, 0, fetch);
  }

  // ---------------------------------------------------------------------------
  // Scrolling

  /** The offset before wrapping: `offset + speed * dt * speedMultiplier`. */
  function Advanced(l: Layer, dt: real, speedMultiplier: real): real
  {
    l.offset + l.speed * dt * speedMultiplier
  }

  /** One layer after `update(dt, speedMultiplier)`: a loaded layer's offset
      is the advanced offset less a whole number of image widths. */
  function Scroll(l: Layer, dt: real, speedMultiplier: real): (r: Layer)
    ensures r.src == l.src && r.speed == l.speed && r.img == l.img
    ensures l.img.None? ==> r.offset == l.offset
    ensures l.img.Some? ==>
              WholeMultiple(Advanced(l, dt, speedMultiplier) - r.offset, l.img.value.width as real)
    ensures l.img.Some? && Advanced(l, dt, speedMultiplier) >= 0.0 ==>
              0.0 <= r.offset < l.img.value.width as real
    ensures l.img.Some? && Advanced(l, dt, speedMultiplier) < 0.0 ==>
              -(l.img.value.width as real) < r.offset <= 0.0
    ensures l.img.Some? && 0.0 <= Advanced(l, dt, speedMultiplier) < l.img.value.width as real ==>
              r.offset == Advanced(l, dt, speedMultiplier)
  {
    match l.img
    case None => l
    case Some(img) => l.(offset := RealRem(Advanced(l, dt, speedMultiplier), img.width as real))
  }

  /** With non-negative offset, speed, time step and multiplier, a loaded layer's
      offset lands in `[0, width)`. */
  lemma ScrollInRange(l: Layer, dt: real, speedMultiplier: real)
    requires l.img.Some? && l.offset >= 0.0 && l.speed >= 0.0 && dt >= 0.0 && speedMultiplier >= 0.0
    ensures 0.0 <= Scroll(l, dt, speedMultiplier).offset < l.img.value.width as real
  {
    var p := l.speed * dt;
    assert p >= 0.0 by { ProductNonNeg(l.speed, dt); }
    ProductNonNeg(p, speedMultiplier);
    assert Advanced(l, dt, speedMultiplier) >= 0.0;
  }

  /** Every layer after `update(dt, speedMultiplier)`, in order. */
  function ScrollLayers(ls: seq<Layer>, dt: real, speedMultiplier: real): (r: seq<Layer>)
    ensures |r| == |ls|
    decreases |ls|
  {
    if ls == [] then [] else ScrollLayers(ls[..|ls| - 1], dt, speedMultiplier) + [Scroll(ls[|ls| - 1], dt, speedMultiplier)]
  }

  /** Layer `i` of the scrolled list is layer `i` scrolled. */
  lemma {:induction false} ScrollLayersAt(ls: seq<Layer>, dt: real, speedMultiplier: real)
    ensures forall i :: 0 <= i < |ls| ==> ScrollLayers(ls, dt, speedMultiplier)[i] == Scroll(ls[i], dt, speedMultiplier)
    decreases |ls|
  {
    if ls != [] {
      ScrollLayersAt(ls[..|ls| - 1], dt, speedMultiplier);
    }
  }

  // ---------------------------------------------------------------------------
  // Tiling

  /** Vertical position of a layer's tiles: just above the ground strip, never negative. */
  function TileY(img: Image, height: int): (y: int)
    ensures y >= 0
    ensures height - img.height - GroundHeight >= 0 ==> y == height - img.height - GroundHeight
    ensures height - img.height - GroundHeight < 0 ==> y == 0
  {
    if height - img.height - GroundHeight >= 0 then height - img.height - GroundHeight else 0
  }

  /** The tiles the `while (x < width)` loop draws, starting at `x`. */
  function Row(img: Image, x: int, y: int, width: int): seq<Tile>
    decreases width - x
  {
    if x >= width then [] else [Tile(img, x, y)] + Row(img, x + img.width, y, width)
  }

  /** The tiles drawn for one layer: none when it has no image. */
  function LayerTiles(l: Layer, width: int, height: int): seq<Tile>
  {
    match l.img
    case None => []
    case Some(img) => Row(img, -l.offset.Floor, TileY(img, height), width)
  }

  /** All tiles `render` draws, layer by layer in list order. */
  function Tiles(ls: seq<Layer>, width: int, height: int): seq<Tile>
    decreases |ls|
  {
    if ls == [] then []
    else Tiles(ls[..|ls| - 1], width, height) + LayerTiles(ls[|ls| - 1], width, height)
  }

  /** A row's tiles are exactly `img.width` apart from its start, all start left of
      `width`, and the last one reaches `width`. */
  lemma {:induction false} RowShape(img: Image, x: int, y: int, width: int)
    ensures var r := Row(img, x, y, width);
      (|r| > 0 <==> x < width) &&
      (forall k :: 0 <= k < |r| ==> r[k] == Tile(img, x + k * img.width, y) && r[k].x < width) &&
      (|r| > 0 ==> r[|r| - 1].x + img.width >= width)
    decreases width - x
  {
    if x < width {
      var rest := Row(img, x + img.width, y, width);
      RowShape(img, x + img.width, y, width);
      forall k | 1 <= k < |rest| + 1
        ensures (x + img.width) + (k - 1) * img.width == x + k * img.width
      {
        assert (k - 1) * img.width == k * img.width - img.width;
      }
    }
  }

  /** Every tile of a row is the row's image at the row's height. */
  lemma {:induction false} RowOf(img: Image, x: int, y: int, width: int)
    ensures forall t :: t in Row(img, x, y, width) ==> t.img == img && t.y == y
    decreases width - x
  {
    if x < width {
      RowOf(img, x + img.width, y, width);
    }
  }

  /** Every point from the row's start up to `width` lies under some tile. */
  lemma {:induction false} RowCovers(img: Image, x: int, y: int, width: int, p: int)
    requires x <= p < width
    ensures exists k :: 0 <= k < |Row(img, x, y, width)| && Row(img, x, y, width)[k].x <= p < Row(img, x, y, width)[k].x + img.width
    decreases width - x
  {
    var r := Row(img, x, y, width);
    if p >= x + img.width {
      RowCovers(img, x + img.width, y, width, p);
      var k :| 0 <= k < |r| - 1 && r[1..][k].x <= p < r[1..][k].x + img.width;
      assert r[k + 1] == r[1..][k];
    } else {
      assert r[0] == Tile(img, x, y);
      assert 0 < |r| && r[0].x <= p < r[0].x + img.width;
    }
  }

  /** For a loaded layer with a non-negative offset the first tile starts at
      `-floor(offset) <= 0`, and the tiles cover the whole viewport `[0, width)`. */
  lemma LayerTilesCover(l: Layer, width: int, height: int, p: int)
    requires l.img.Some? && l.offset >= 0.0 && 0 <= p < width
    ensures var t := LayerTiles(l, width, height);
      |t| > 0 && t[0].x == -l.offset.Floor && t[0].x <= 0 &&
      exists k :: 0 <= k < |t| && t[k].x <= p < t[k].x + l.img.value.width
  {
    var img := l.img.value;
    RowShape(img, -l.offset.Floor, TileY(img, height), width);
    RowCovers(img, -l.offset.Floor, TileY(img, height), width, p);
  }

  /** A tile drawn at a non-negative height from the image of one of the layers `ls`. */
  ghost predicate FromLoadedLayer(t: Tile, ls: seq<Layer>)
  {
    t.y >= 0 && exists i :: 0 <= i < |ls| && ls[i].img == Some(t.img)
  }

  /** Every tile comes from a loaded layer of the list and sits at a non-negative height. */
  lemma {:induction false} TilesFromLoadedLayers(ls: seq<Layer>, width: int, height: int)
    ensures forall t :: t in Tiles(ls, width, height) ==> FromLoadedLayer(t, ls)
    decreases |ls|
  {
    if ls != [] {
      var n := |ls| - 1;
      var prefix: seq<Tile> := Tiles(ls[..n], width, height);
      var last: seq<Tile> := LayerTiles(ls[n], width, height);
      TilesFromLoadedLayers(ls[..n], width, height);
      if ls[n].img.Some? {
        var img := ls[n].img.value;
        RowOf(img, -ls[n].offset.Floor, TileY(img, height), width);
      }
      assert Tiles(ls, width, height) == prefix + last;
      forall t | t in prefix + last
        ensures FromLoadedLayer(t, ls)
      {
        if t in prefix {
          assert FromLoadedLayer(t, ls[..n]);
          var i :| 0 <= i < n && ls[..n][i].img == Some(t.img);
          assert ls[i] == ls[..n][i];
        } else {
          assert ls[n].img == Some(t.img);
        }
      }
    }
  }

  /** One layer of `render`: nothing for an unloaded layer; otherwise copies of
      its image side by side from `-floor(offset)` while they start left of
      `width`, standing on the ground strip (or at the top when the image is
      taller than the space above it). */
  method DrawLayer(l: Layer, width: int, height: int) returns (row: seq<Tile>)
    ensures row == LayerTiles(l, width, height)
  {
    row := [];
    if l.img.Some? {
      var img := l.img.value;
      var y := if height - img.height - GroundHeight >= 0 then height - img.height - GroundHeight else 0;
      var x := -l.offset.Floor;
      assert y == TileY(img, height);
      while x < width
        invariant row + Row(img, x, y, width) == LayerTiles(l, width, height)
        decreases width - x
      {
        assert Row(img, x, y, width) == [Tile(img, x, y)] + Row(img, x + img.width, y, width);
        row := row + [Tile(img, x, y)];
        x := x + img.width;
      }
    }
  }

  // ---------------------------------------------------------------------------
  // The layer list

  class Backgrounds {
    var layers: seq<Layer>

    constructor ()
      ensures layers == InitialLayers()
    {
      layers := InitialLayers();
    }

    /** `load(candidateFolders)`: resolves every layer's image; returns one flag per
        layer, true exactly when that layer has an image afterwards. */
    method Load(folders: seq<string>, fetch: Fetch) returns (loaded: seq<bool>)
      modifies this
      ensures |layers| == |old(layers)|
      ensures forall i :: 0 <= i < |layers| ==> layers[i] == LoadedLayer(old(layers)[i], folders, fetch)
      ensures |loaded| == |layers|
      ensures forall i :: 0 <= i < |layers| ==> loaded[i] == layers[i].img.Some?
    {
      var i := 0;
      while i < |layers|
        invariant i <= |layers| == |old(layers)|
        invariant forall j :: 0 <= j < i ==> layers[j] == LoadedLayer(old(layers)[j], folders, fetch)
        invariant forall j :: i <= j < |layers| ==> layers[j] == old(layers)[j]
      {
        var res, _ := LoadFromFolders(layers[i].src, folders, fetch);
        if res.Some? {
          layers := layers[i := layers[i].(img := Some(res.value.img))];
        }
        i := i + 1;
      }
      var ls := layers;
      loaded := seq(|ls|, j requires 0 <= j < |ls| => ls[j].img.Some?);
    }

    /** `update(dt, speedMultiplier)`: advances and wraps every loaded layer's offset;
        nothing else about the list changes. */
    method Update(dt: real, speedMultiplier: real)
      modifies this
      ensures layers == ScrollLayers(old(layers), dt, speedMultiplier)
    {
      var i := 0;
      while i < |layers|
        invariant i <= |layers| == |old(layers)|
        invariant forall j :: 0 <= j < i ==> layers[j] == Scroll(old(layers)[j], dt, speedMultiplier)
        invariant forall j :: i <= j < |layers| ==> layers[j] == old(layers)[j]
      {
        var l := layers[i];
        if l.img.Some? {
          layers := layers[i := l.(offset := RealRem(Advanced(l, dt, speedMultiplier), l.img.value.width as real))];
        }
        i := i + 1;
      }
      ScrollLayersAt(old(layers), dt, speedMultiplier);
    }

    /** `render(ctx, width, height)`: the tiles drawn, in drawing order. */
    method Render(width: int, height: int) returns (tiles: seq<Tile>)
      ensures tiles == Tiles(layers, width, height)
    {
      tiles := [];
      var i := 0;
      while i < |layers|
        invariant i <= |layers|
        invariant tiles == Tiles(layers[..i], width, height)
      {
        var row := DrawLayer(layers[i], width, height);
        tiles := tiles + row;
        assert layers[..i + 1][..i] == layers[..i];
        i := i + 1;
      }
      assert layers[..i] == layers;
    }
  }
}
