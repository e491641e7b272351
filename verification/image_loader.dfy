/** The image loader of the 2D game: it reads a picture once per name, rotates
    it when asked, makes fully transparent pixels white and transparent,
    wraps the pixels as an image anchored at its centre and caches the image
    and a sprite of it by name. Decoding the file and rotating the picture
    are done by an imaging library and come in as parameters. */
module Images {

  newtype Byte = x: int | 0 <= x < 256

  /** One RGBA pixel. */
  datatype Pixel = Pixel(r: Byte, g: Byte, b: Byte, a: Byte)

  /** A decoded picture: its size and its pixels row by row. */
  datatype Raster = Raster(width: nat, height: nat, pixels: seq<Pixel>)

  /** The image handed to the window: RGBA bytes, a row pitch and an anchor. */
  datatype ImageData = ImageData(width: nat, height: nat, data: seq<Byte>, pitch: int, anchorX: nat, anchorY: nat)

  /** The pixel the loader keeps: a fully transparent pixel becomes white and
      fully transparent, any other stays as it is. */
  function Cleared(p: Pixel): Pixel
  {
    if p.a == 0 then Pixel(255, 255, 255, 0) else p
  }

  /** The bytes of a run of pixels, four per pixel in RGBA order. */
  function Bytes(pixels: seq<Pixel>): seq<Byte>
  {
    if pixels == [] then []
    else [pixels[0].r, pixels[0].g, pixels[0].b, pixels[0].a] + Bytes(pixels[1..])
  }

  /** The image for a processed picture: its bytes with a negative pitch of
      four bytes per column, so rows run from the top, anchored at the middle
      rounded down. */
  function Wrap(img: Raster): ImageData
  {
    ImageData(img.width, img.height, Bytes(img.pixels), -(img.width * 4), img.width / 2, img.height / 2)
  }

  /** The picture that gets wrapped: the decoded one, rotated by the library
      unless the angle is zero, with its transparent pixels cleared. */
  function Processed(decoded: Raster, rotation: real, rotate: (Raster, real) -> Raster): Raster
  {
    var img := if rotation != 0.0 then rotate(decoded, rotation) else decoded;
    img.(pixels := seq(|img.pixels|, i requires 0 <= i < |img.pixels| => Cleared(img.pixels[i])))
  }

  /** Makes every fully transparent pixel white and transparent, one pixel
      after the other, keeping all others. */
  method ClearTransparent(data: seq<Pixel>) returns (newData: seq<Pixel>)
    ensures |newData| == |data|
    ensures forall i :: 0 <= i < |data| ==> newData[i] == Cleared(data[i])
  {
    newData := [];
    var k := 0;
    while k < |data|
      invariant 0 <= k <= |data|
      invariant |newData| == k
      invariant forall i :: 0 <= i < k ==> newData[i] == Cleared(data[i])
    {
      if data[k].a == 0 {
        newData := newData + [Pixel(255, 255, 255, 0)];
      } else {
        newData := newData + [data[k]];
      }
      k := k + 1;
    }
  }

  /** Clearing keeps every pixel's transparency, changes only fully
      transparent pixels, makes all of them the same, and clearing twice is
      clearing once. */
  lemma ClearedSpec(p: Pixel)
    ensures Cleared(p).a == p.a
    ensures p.a != 0 ==> Cleared(p) == p
    ensures p.a == 0 ==> Cleared(p) == Pixel(255, 255, 255, 0)
    ensures Cleared(Cleared(p)) == Cleared(p)
  {
  }

  /** The bytes hold four per pixel: the i-th pixel's channels in RGBA order
      at offset 4 i. */
  lemma {:induction false} BytesSpec(pixels: seq<Pixel>)
    ensures |Bytes(pixels)| == 4 * |pixels|
    ensures forall i :: 0 <= i < |pixels| ==>
      && Bytes(pixels)[4 * i] == pixels[i].r && Bytes(pixels)[4 * i + 1] == pixels[i].g
      && Bytes(pixels)[4 * i + 2] == pixels[i].b && Bytes(pixels)[4 * i + 3] == pixels[i].a
  {
    if pixels != [] {
      BytesSpec(pixels[1..]);
      var head := [pixels[0].r, pixels[0].g, pixels[0].b, pixels[0].a];
      assert Bytes(pixels) == head + Bytes(pixels[1..]);
      forall i | 1 <= i < |pixels|
        ensures Bytes(pixels)[4 * i] == pixels[i].r && Bytes(pixels)[4 * i + 1] == pixels[i].g
        ensures Bytes(pixels)[4 * i + 2] == pixels[i].b && Bytes(pixels)[4 * i + 3] == pixels[i].a
      {
        assert pixels[1..][i - 1] == pixels[i];
        assert 4 * i == 4 + 4 * (i - 1);
      }
    }
  }

  /** The wrapped image keeps the picture's size, is anchored at its centre
      rounded down, has a pitch of minus the bytes of a row, and holds every
      pixel's bytes; for a picture of width times height pixels the rows
      cover exactly its bytes. */
  lemma WrapSpec(img: Raster)
    ensures var d := Wrap(img);
      && d.width == img.width && d.height == img.height
      && d.pitch == -4 * img.width && d.pitch <= 0
      && 2 * d.anchorX <= d.width < 2 * d.anchorX + 2
      && 2 * d.anchorY <= d.height < 2 * d.anchorY + 2
      && |d.data| == 4 * |img.pixels|
      && (|img.pixels| == img.width * img.height ==> -d.pitch * d.height == |d.data|)
  {
    BytesSpec(img.pixels);
    assert 4 * (img.width * img.height) == (4 * img.width) * img.height;
  }

  /** Processing leaves no pixel transparent and coloured: every pixel of the
      processed picture is cleared, a second clearing changes nothing, and an
      angle of zero keeps the decoded picture's size and opaque pixels. */
  lemma ProcessedSpec(decoded: Raster, rotation: real, rotate: (Raster, real) -> Raster)
    ensures var img := Processed(decoded, rotation, rotate);
      forall i :: 0 <= i < |img.pixels| ==> Cleared(img.pixels[i]) == img.pixels[i]
    ensures rotation == 0.0 ==>
      var img := Processed(decoded, rotation, rotate);
      && img.width == decoded.width && img.height == decoded.height
      && |img.pixels| == |decoded.pixels|
      && forall i :: 0 <= i < |img.pixels| && decoded.pixels[i].a != 0 ==> img.pixels[i] == decoded.pixels[i]
  {
    var img := Processed(decoded, rotation, rotate);
    forall i | 0 <= i < |img.pixels|
      ensures Cleared(img.pixels[i]) == img.pixels[i]
    {
      ClearedSpec(if rotation != 0.0 then rotate(decoded, rotation).pixels[i] else decoded.pixels[i]);
    }
    if rotation == 0.0 {
      forall i | 0 <= i < |img.pixels| && decoded.pixels[i].a != 0
        ensures img.pixels[i] == decoded.pixels[i]
      {
        ClearedSpec(decoded.pixels[i]);
      }
    }
  }

  /** A sprite of a cached image; the game moves and scales it. */
  class Sprite {
    const image: ImageData
    var scale: real

    constructor(image: ImageData, scale: real)
      ensures this.image == image && this.scale == scale
    {
      this.image := image;
      this.scale := scale;
    }
  }

  /** The key get_sprite looks up: the name, the angle and the scale joined
      by underscores. The texts of the two numbers are parameters. */
  function SpriteKey(name: string, rotationText: string, scaleText: string): string
  {
    name + "_" + rotationText + "_" + scaleText
  }

  /** A composite key always contains an underscore, so it never names a
      sprite stored under a name without one. */
  lemma SpriteKeyMisses(name: string, rotationText: string, scaleText: string, stored: set<string>)
    requires forall k :: k in stored ==> '_' !in k
    ensures SpriteKey(name, rotationText, scaleText) !in stored
    ensures |SpriteKey(name, rotationText, scaleText)| == |name| + |rotationText| + |scaleText| + 2
  {
    var key := SpriteKey(name, rotationText, scaleText);
    assert key[|name|] == '_';
  }

  class ImageLoader {
    var images: map<string, ImageData>
    var sprites: map<string, Sprite>
    /** The base scale of every game object sprite. */
    const baseScale: real

    /** Images and sprites are cached under the same names. */
    ghost predicate Valid()
      reads this
    {
      images.Keys == sprites.Keys
    }

    constructor(baseScale: real)
      ensures images == map[] && sprites == map[] && this.baseScale == baseScale
      ensures Valid()
    {
      images := map[];
      sprites := map[];
      this.baseScale := baseScale;
    }

    /** The sprite cached under the name, whatever angle and scale are asked
        for now; otherwise the picture is processed and wrapped, and the
        image and a new sprite of it, scaled by the base scale, are cached
        under the name. */
    method LoadImage(name: string, rotation: real, scale: real, decoded: Raster, rotate: (Raster, real) -> Raster)
      returns (sprite: Sprite)
      modifies this`images, this`sprites
      ensures name in old(sprites) ==>
        sprite == old(sprites)[name] && images == old(images) && sprites == old(sprites)
      ensures name !in old(sprites) ==>
        && fresh(sprite)
        && sprite.image == Wrap(Processed(decoded, rotation, rotate))
        && sprite.scale == scale * baseScale
        && images == old(images)[name := sprite.image]
        && sprites == old(sprites)[name := sprite]
      ensures old(Valid()) ==> Valid()
      ensures name in sprites && sprites[name] == sprite
    {
      if name in sprites {
        return sprites[name];
      }
      var image := if rotation != 0.0 then rotate(decoded, rotation) else decoded;
      var pixels := ClearTransparent(image.pixels);
      var processed := image.(pixels := pixels);
      assert processed == Processed(decoded, rotation, rotate);
      var data := Wrap(processed);
      images := images[name := data];
      sprite := new Sprite(data, scale * baseScale);
      sprites := sprites[name := sprite];
    }

    /** The sprite cached under the composite key if there is one, otherwise
        whatever LoadImage gives for the name. */
    method GetSprite(name: string, rotation: real, scale: real, rotationText: string, scaleText: string,
                     decoded: Raster, rotate: (Raster, real) -> Raster)
      returns (sprite: Sprite)
      modifies this`images, this`sprites
      ensures SpriteKey(name, rotationText, scaleText) in old(sprites) ==>
        sprite == old(sprites)[SpriteKey(name, rotationText, scaleText)] && images == old(images) && sprites == old(sprites)
      ensures SpriteKey(name, rotationText, scaleText) !in old(sprites) && name in old(sprites) ==>
        sprite == old(sprites)[name] && images == old(images) && sprites == old(sprites)
      ensures SpriteKey(name, rotationText, scaleText) !in old(sprites) && name !in old(sprites) ==>
        && fresh(sprite)
        && sprite.image == Wrap(Processed(decoded, rotation, rotate))
        && sprite.scale == scale * baseScale
        && images == old(images)[name := sprite.image]
        && sprites == old(sprites)[name := sprite]
      ensures old(Valid()) ==> Valid()
    {
      var key := SpriteKey(name, rotationText, scaleText);
      if key in sprites {
        return sprites[key];
      }
      sprite := LoadImage(name, rotation, scale, decoded, rotate);
    }
  }
}
