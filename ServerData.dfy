/** The server's in-memory catalog (server/data.py): two append-only lists, one
    of images and one of containers, and their export as a JSON value. */
module ServerData {

  import opened Results
  import opened Records

  /** The list an optional constructor argument stands for: `xs if xs else []`. */
  function Given<T>(xs: Option<seq<T>>): (r: seq<T>)
    ensures xs.None? ==> r == []
    ensures xs.Some? ==> r == xs.value
  {
    if xs.Some? && xs.value != [] then xs.value else []
  }

  /** The value `to_json` serialises: exactly the keys "images" and "containers",
      each holding one projection per element, in insertion order. */
  function Export(images: seq<Image>, containers: seq<Container>): (r: Json)
    ensures r.JObject? && Keys(r.members) == ["images", "containers"]
  {
    JObject([("images", JArray(MapSeq(images, ImageToDict))), ("containers", JArray(MapSeq(containers, ContainerToDict)))])
  }

  /** The array stored under `key`, if it is an array. */
  function ListAt(j: Json, key: string): Option<seq<Json>> {
    if !j.JObject? then None
    else
      match Lookup(j.members, key)
      case Some(JArray(items)) => Some(items)
      case _ => None
  }

  /** Reads the catalog back from an export. */
  function Import(j: Json): Option<(seq<Image>, seq<Container>)> {
    match (ListAt(j, "images"), ListAt(j, "containers"))
    case (Some(imageItems), Some(containerItems)) =>
      (match (DecodeAll(imageItems, ImageFromDict), DecodeAll(containerItems, ContainerFromDict))
       case (Some(images), Some(containers)) => Some((images, containers))
       case _ => None)
    case _ => None
  }

  lemma ListsOfExport(images: seq<Image>, containers: seq<Container>)
    ensures ListAt(Export(images, containers), "images") == Some(MapSeq(images, ImageToDict))
    ensures ListAt(Export(images, containers), "containers") == Some(MapSeq(containers, ContainerToDict))
  {
    var j := Export(images, containers);
    LookupFirst(j.members, "images", 0);
    LookupFirst(j.members, "containers", 1);
  }

  /** The export loses nothing: both lists, with their order and repetitions,
      can be read back from it. */
  lemma ExportRoundTrip(images: seq<Image>, containers: seq<Container>)
    ensures Import(Export(images, containers)) == Some((images, containers))
  {
    ListsOfExport(images, containers);
    forall i | 0 <= i < |images| ensures ImageFromDict(ImageToDict(images[i])) == Some(images[i]) {
      ImageRoundTrip(images[i]);
    }
    DecodeAllOfMapSeq(images, ImageToDict, ImageFromDict);
    forall i | 0 <= i < |containers| ensures ContainerFromDict(ContainerToDict(containers[i])) == Some(containers[i]) {
      ContainerRoundTrip(containers[i]);
    }
    DecodeAllOfMapSeq(containers, ContainerToDict, ContainerFromDict);
  }

  /** Adding an image appends its projection to the exported images and leaves the
      exported containers as they were. */
  lemma ExportAfterAddImage(images: seq<Image>, containers: seq<Container>, image: Image)
    ensures ListAt(Export(images + [image], containers), "images") ==
            Some(MapSeq(images, ImageToDict) + [ImageToDict(image)])
    ensures ListAt(Export(images + [image], containers), "containers") ==
            ListAt(Export(images, containers), "containers")
  {
    ListsOfExport(images + [image], containers);
    ListsOfExport(images, containers);
    MapSeqAppend(images, image, ImageToDict);
  }

  /** Adding a container appends its projection to the exported containers and
      leaves the exported images as they were. */
  lemma ExportAfterAddContainer(images: seq<Image>, containers: seq<Container>, container: Container)
    ensures ListAt(Export(images, containers + [container]), "containers") ==
            Some(MapSeq(containers, ContainerToDict) + [ContainerToDict(container)])
    ensures ListAt(Export(images, containers + [container]), "images") ==
            ListAt(Export(images, containers), "images")
  {
    ListsOfExport(images, containers + [container]);
    ListsOfExport(images, containers);
    MapSeqAppend(containers, container, ContainerToDict);
  }

  /** The catalog does not deduplicate: an image added twice is exported twice. */
  lemma ExportKeepsDuplicates(images: seq<Image>, containers: seq<Container>, image: Image)
    ensures var l := ListAt(Export(images + [image] + [image], containers), "images");
      l.Some? && |l.value| == |images| + 2 && l.value[|images|] == l.value[|images| + 1] == ImageToDict(image)
  {
    ListsOfExport(images + [image] + [image], containers);
  }

  /** `Data`: the lists are fields that `add_image` and `add_container` append to. */
  class Data {
    var images: seq<Image>
    var containers: seq<Container>

    /** `Data(images=None, containers=None)`: a missing or empty argument gives an
        empty list, a non-empty one is kept as given. */
    constructor(images: Option<seq<Image>>, containers: Option<seq<Container>>)
      ensures this.images == Given(images) && this.containers == Given(containers)
    {
      this.images := Given(images);
      this.containers := Given(containers);
    }

    method AddImage(image: Image)
      modifies this
      ensures images == old(images) + [image]
      ensures containers == old(containers)
    {
      images := images + [image];
    }

    method AddContainer(container: Container)
      modifies this
      ensures containers == old(containers) + [container]
      ensures images == old(images)
    {
      containers := containers + [container];
    }

    /** `to_json` before serialisation: the export, from which both lists are
        recovered exactly. */
    function ToJson(): (r: Json)
      reads this
      ensures r.JObject? && Keys(r.members) == ["images", "containers"]
      ensures Import(r) == Some((images, containers))
    {
      ExportRoundTrip(images, containers);
      Export(images, containers)
    }
  }
}
