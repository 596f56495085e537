/** The Harvester image catalogue: the static `IMAGES` table, the mapping of
    one entry to an image declaration (`create_image`), and the loop that
    declares every entry into the module-level dictionary `IMAGES_PULUMI`
    (`create_all_images`). */
module Images {
  import opened Common

  /** The namespace every declared image lives in. */
  const PublicNamespace := "harvester-public"
  const DownloadSource := "download"

  /** `DEFAULT_IMAGE` and `DEFAULT_CONTAINER_IMAGE`: `namespace/name` references. */
  const DefaultImage := "harvester-public/ubuntu-server-noble-24.04"
  const DefaultContainerImage := "harvester-public/flatcar-latest"

  /** The optional `timeouts` field of a table entry. */
  datatype Timeouts = Timeouts(create: string, update: string)

  /** One value of the `IMAGES` table. */
  datatype ImageDef = ImageDef(url: string, os: string, arch: string, description: string,
                               timeouts: Option<Timeouts>)

  /** The keys of the `IMAGES` table, in the dictionary's order. */
  const CatalogueKeys: seq<string> := [
    "ubuntu-server-noble-24.04",
    "ubuntu-server-jammy-22.04",
    "ubuntu-server-focal-20.04",
    "ubuntu-server-bionic-18.04",
    "ubuntu-server-xenial-16.04",
    "ubuntu-server-trusty-14.04",
    "debian-trixie-13",
    "debian-bookworm-12",
    "debian-bullseye-11",
    "debian-buster-10",
    "debian-stretch-9",
    "debian-jessie-8",
    "rocky-10",
    "rocky-9",
    "rocky-8",
    "centos-10",
    "centos-9",
    "centos-8",
    "fedora-42",
    "fedora-41",
    "flatcar-latest",
    "windows25-runner"
  ]

  /** The values of the `IMAGES` table, each at its key's position. */
  const CatalogueEntries: seq<ImageDef> := [
    // ubuntu-server-noble-24.04
    ImageDef("https://cloud-images.ubuntu.com/noble/current/noble-server-cloudimg-amd64.img",
      "ubuntu", "amd64", "Ubuntu Server 24.04 LTS (Noble)", None),
    // ubuntu-server-jammy-22.04
    ImageDef("https://cloud-images.ubuntu.com/jammy/current/jammy-server-cloudimg-amd64.img",
      "ubuntu", "amd64", "Ubuntu Server 22.04 LTS (Jammy)", None),
    // ubuntu-server-focal-20.04
    ImageDef("https://cloud-images.ubuntu.com/focal/current/focal-server-cloudimg-amd64.img",
      "ubuntu", "amd64", "Ubuntu Server 20.04 LTS (Focal)", None),
    // ubuntu-server-bionic-18.04
    ImageDef("https://cloud-images.ubuntu.com/bionic/current/bionic-server-cloudimg-amd64.img",
      "ubuntu", "amd64", "Ubuntu Server 18.04 LTS (Bionic)", None),
    // ubuntu-server-xenial-16.04
    ImageDef("https://cloud-images.ubuntu.com/xenial/current/xenial-server-cloudimg-amd64-disk1.img",
      "ubuntu", "amd64", "Ubuntu Server 16.04 LTS (Xenial)", None),
    // ubuntu-server-trusty-14.04
    ImageDef("https://cloud-images.ubuntu.com/trusty/current/trusty-server-cloudimg-amd64-disk1.img",
      "ubuntu", "amd64", "Ubuntu Server 14.04 LTS (Trusty)", None),
    // debian-trixie-13
    ImageDef("https://cloud.debian.org/images/cloud/trixie/latest/debian-13-generic-amd64.qcow2",
      "debian", "amd64", "Debian 13 (Trixie)", None),
    // debian-bookworm-12
    ImageDef("https://cloud.debian.org/images/cloud/bookworm/latest/debian-12-generic-amd64.qcow2",
      "debian", "amd64", "Debian 12 (Bookworm)", None),
    // debian-bullseye-11
    ImageDef("https://cloud.debian.org/images/cloud/bullseye/latest/debian-11-generic-amd64.qcow2",
      "debian", "amd64", "Debian 11 (Bullseye)", None),
    // debian-buster-10
    ImageDef("https://cloud.debian.org/images/cloud/buster/latest/debian-10-generic-amd64.qcow2",
      "debian", "amd64", "Debian 10 (Buster)", None),
    // debian-stretch-9
    ImageDef("https://cdimage.debian.org/cdimage/openstack/9.13.42-20220706/debian-9.13.42-20220706-openstack-amd64.qcow2",
      "debian", "amd64", "Debian 9 (Stretch)", None),
    // debian-jessie-8
    ImageDef("https://cloud.debian.org/images/cloud/OpenStack/archive/8.10.0/debian-8.10.0-openstack-amd64.qcow2",
      "debian", "amd64", "Debian 8 (Jessie)", None),
    // rocky-10
    ImageDef("https://dl.rockylinux.org/pub/rocky/10/images/x86_64/Rocky-10-GenericCloud-Base.latest.x86_64.qcow2",
      "rocky", "amd64", "Rocky 10", None),
    // rocky-9
    ImageDef("https://dl.rockylinux.org/pub/rocky/9/images/x86_64/Rocky-9-GenericCloud-Base.latest.x86_64.qcow2",
      "rocky", "amd64", "Rocky 9", None),
    // rocky-8
    ImageDef("https://dl.rockylinux.org/pub/rocky/8/images/x86_64/Rocky-8-GenericCloud-Base.latest.x86_64.qcow2",
      "rocky", "amd64", "Rocky 8", None),
    // centos-10
    ImageDef("https://cloud.centos.org/centos/10-stream/x86_64/images/CentOS-Stream-GenericCloud-10-latest.x86_64.qcow2",
      "centos", "amd64", "Centos 10", None),
    // centos-9
    ImageDef("https://cloud.centos.org/centos/9-stream/x86_64/images/CentOS-Stream-GenericCloud-9-latest.x86_64.qcow2",
      "centos", "amd64", "Centos 9", None),
    // centos-8
    ImageDef("https://cloud.centos.org/centos/8-stream/x86_64/images/CentOS-Stream-GenericCloud-8-latest.x86_64.qcow2",
      "centos", "amd64", "Centos 8", None),
    // fedora-42
    ImageDef("https://download.fedoraproject.org/pub/fedora/linux/releases/42/Cloud/x86_64/images/Fedora-Cloud-Base-Generic-42-1.1.x86_64.qcow2",
      "fedora", "amd64", "Fedora 42", None),
    // fedora-41
    ImageDef("https://ftp-osl.osuosl.org/pub/fedora/linux/releases/41/Cloud/x86_64/images/Fedora-Cloud-Base-Generic-41-1.4.x86_64.qcow2",
      "fedora", "amd64", "Fedora 41", None),
    // flatcar-latest
    ImageDef("https://stable.release.flatcar-linux.net/amd64-usr/current/flatcar_production_kubevirt_image.qcow2",
      "flatcar", "amd64", "FlatCar Container Linux (latest)", None),
    // windows25-runner
    ImageDef("https://md-gfmhgbfz5m5l.z23.blob.storage.azure.net/g2wqrnpqqshn/abcd?sv=2018-03-28&sr=b&si=71bbbf8f-e2dd-4b6f-a700-da2fad4819b9&sig=zsUgX0iZqpDnDs5AJYj52wKL%2Fx257qslppiIERwNBZE%3D",
      "windows", "amd64", "Windows Server 2025 Github Actions Runner", Some(Timeouts("36000", "36000")))
  ]

  /** Pairs each key with the entry at the same position. */
  function Zip(keys: seq<string>, entries: seq<ImageDef>): (pairs: seq<(string, ImageDef)>)
    requires |keys| == |entries|
    ensures |pairs| == |keys|
    ensures forall i | 0 <= i < |keys| :: pairs[i] == (keys[i], entries[i])
  {
    seq(|keys|, i requires 0 <= i < |keys| => (keys[i], entries[i]))
  }

  /** The `IMAGES` table as (key, entry) pairs, in the dictionary's order. */
  const Catalogue: seq<(string, ImageDef)> := Zip(CatalogueKeys, CatalogueEntries)

  /** The keys of a table, in order. */
  function Keys(entries: seq<(string, ImageDef)>): (ks: seq<string>)
    ensures |ks| == |entries|
    ensures forall i | 0 <= i < |entries| :: ks[i] == entries[i].0
  {
    seq(|entries|, i requires 0 <= i < |entries| => entries[i].0)
  }

  /** The keys of a table are pairwise different, as a dictionary's are. */
  predicate DistinctKeys(entries: seq<(string, ImageDef)>) {
    forall i, j | 0 <= i < j < |entries| :: entries[i].0 != entries[j].0
  }

  /** The `harvester.Image` declaration, as the arguments it is given. */
  datatype ImageDecl = ImageDecl(resourceName: string, name: string, displayName: string,
                                 description: string, namespace: string, sourceType: string,
                                 url: string, tags: map<string, string>)

  /** `create_image(name, image_def)`: the key becomes the resource name, the
      image name and the display name; url and description are copied; the
      tags record the OS and architecture; the namespace and source type are
      fixed. The entry's `timeouts` is not read. */
  function CreateImage(name: string, imageDef: ImageDef): ImageDecl {
    ImageDecl(name, name, name, imageDef.description, PublicNamespace, DownloadSource,
              imageDef.url, map["os-type" := imageDef.os, "arch" := imageDef.arch])
  }

  /** How other components refer to a declared image: `namespace/name`. */
  function Reference(image: ImageDecl): string {
    image.namespace + "/" + image.name
  }

  /** Reads a declaration back into the table entry it came from, when its
      tags hold an OS and an architecture. */
  function EntryOf(image: ImageDecl): Option<(string, ImageDef)> {
    if "os-type" in image.tags && "arch" in image.tags
    then Some((image.name, ImageDef(image.url, image.tags["os-type"], image.tags["arch"],
                                    image.description, None)))
    else None
  }

  /** A declaration gives back its key and every field of its entry except
      `timeouts`, which `create_image` drops; its resource name is the key,
      and it is always in the public namespace, has source type `download`,
      and is referenced as `harvester-public/<key>`. */
  lemma CreateImageRoundTrip(name: string, imageDef: ImageDef)
    ensures EntryOf(CreateImage(name, imageDef)) == Some((name, imageDef.(timeouts := None)))
    ensures CreateImage(name, imageDef).displayName == CreateImage(name, imageDef).name == name
    ensures CreateImage(name, imageDef).tags.Keys == {"os-type", "arch"}
    ensures Reference(CreateImage(name, imageDef)) == PublicNamespace + "/" + name
    ensures CreateImage(name, imageDef).resourceName == name
    ensures CreateImage(name, imageDef).namespace == PublicNamespace
    ensures CreateImage(name, imageDef).sourceType == DownloadSource
  {
  }

  /** Two entries that differ only in `timeouts` give the same declaration. */
  lemma TimeoutsIgnored(name: string, imageDef: ImageDef, timeouts: Option<Timeouts>)
    ensures CreateImage(name, imageDef.(timeouts := timeouts)) == CreateImage(name, imageDef)
  {
  }

  /** `IMAGES_PULUMI` after the entries are declared into `m` in order, each
      under its key; a later entry with the same key would overwrite. */
  function Declared(m: map<string, ImageDecl>, entries: seq<(string, ImageDef)>): map<string, ImageDecl>
    decreases |entries|
  {
    if entries == [] then m
    else
      var last := entries[|entries| - 1];
      Declared(m, entries[..|entries| - 1])[last.0 := CreateImage(last.0, last.1)]
  }

  /** Declaring adds exactly the table's keys to those already present. */
  lemma {:induction false} DeclaredKeys(m: map<string, ImageDecl>, entries: seq<(string, ImageDef)>)
    ensures Declared(m, entries).Keys == m.Keys + set i | 0 <= i < |entries| :: entries[i].0
    decreases |entries|
  {
    if entries != [] {
      var init := entries[..|entries| - 1];
      DeclaredKeys(m, init);
      assert (set i | 0 <= i < |entries| :: entries[i].0)
          == (set i | 0 <= i < |init| :: init[i].0) + {entries[|entries| - 1].0} by {
        forall i | 0 <= i < |init| ensures init[i] == entries[i] { }
      }
    }
  }

  /** A key no entry has keeps the value it had. */
  lemma {:induction false} DeclaredUntouched(m: map<string, ImageDecl>, entries: seq<(string, ImageDef)>, key: string)
    requires key in m
    requires forall i | 0 <= i < |entries| :: entries[i].0 != key
    ensures key in Declared(m, entries) && Declared(m, entries)[key] == m[key]
    decreases |entries|
  {
    if entries != [] {
      var init := entries[..|entries| - 1];
      assert forall i | 0 <= i < |init| :: init[i] == entries[i];
      DeclaredUntouched(m, init, key);
    }
  }

  /** With distinct keys, every key ends up holding its own entry's declaration. */
  lemma {:induction false} DeclaredEntries(m: map<string, ImageDecl>, entries: seq<(string, ImageDef)>)
    requires DistinctKeys(entries)
    ensures forall i | 0 <= i < |entries| ::
      entries[i].0 in Declared(m, entries) &&
      Declared(m, entries)[entries[i].0] == CreateImage(entries[i].0, entries[i].1)
    decreases |entries|
  {
    if entries != [] {
      var n := |entries| - 1;
      var init := entries[..n];
      assert forall i | 0 <= i < |init| :: init[i] == entries[i];
      DeclaredEntries(m, init);
    }
  }

  /** The table has one entry per key. */
  lemma CatalogueSize()
    ensures |CatalogueKeys| == |CatalogueEntries| == |Catalogue| == 22
    ensures forall i | 0 <= i < 22 :: Catalogue[i] == (CatalogueKeys[i], CatalogueEntries[i])
  {
  }

  /** The table's keys are pairwise different. */
  lemma KeysPairwiseDifferent()
    ensures forall i, j | 0 <= i < j < |CatalogueKeys| :: CatalogueKeys[i] != CatalogueKeys[j]
  {
  }

  /** The table has the distinct keys of a dictionary. */
  lemma CatalogueKeysDistinct()
    ensures DistinctKeys(Catalogue)
  {
    CatalogueSize();
    KeysPairwiseDifferent();
  }

  /** After `create_all_images`, `IMAGES_PULUMI` holds every key of `IMAGES`,
      each with its entry's declaration, and keeps every other key it held. */
  lemma AllImagesDeclared(m: map<string, ImageDecl>)
    ensures Declared(m, Catalogue).Keys == m.Keys + set i | 0 <= i < |Catalogue| :: Catalogue[i].0
    ensures forall i | 0 <= i < |Catalogue| ::
      Declared(m, Catalogue)[Catalogue[i].0] == CreateImage(Catalogue[i].0, Catalogue[i].1)
    ensures forall key | key in m && key !in Keys(Catalogue) :: Declared(m, Catalogue)[key] == m[key]
  {
    DeclaredKeys(m, Catalogue);
    CatalogueKeysDistinct();
    DeclaredEntries(m, Catalogue);
    forall key | key in m && key !in Keys(Catalogue) ensures Declared(m, Catalogue)[key] == m[key] {
      DeclaredUntouched(m, Catalogue, key);
    }
  }

  /** With distinct keys, the `i`-th key is declared and referenced as
      `harvester-public/<key>`. */
  lemma DeclaredReference(m: map<string, ImageDecl>, entries: seq<(string, ImageDef)>, i: nat)
    requires DistinctKeys(entries) && i < |entries|
    ensures entries[i].0 in Declared(m, entries)
    ensures Reference(Declared(m, entries)[entries[i].0]) == PublicNamespace + "/" + entries[i].0
  {
    DeclaredEntries(m, entries);
  }

  /** `DEFAULT_IMAGE` is `harvester-public/` followed by the first key. */
  lemma DefaultImageNamesFirstKey()
    ensures |CatalogueKeys| == 22
    ensures DefaultImage == PublicNamespace + "/" + CatalogueKeys[0]
  {
    assert CatalogueKeys[0] == "ubuntu-server-noble-24.04";
  }

  /** `DEFAULT_CONTAINER_IMAGE` is `harvester-public/` followed by the
      `flatcar-latest` key. */
  lemma DefaultContainerImageNamesFlatcarKey()
    ensures |CatalogueKeys| == 22
    ensures DefaultContainerImage == PublicNamespace + "/" + CatalogueKeys[20]
  {
    assert CatalogueKeys[20] == "flatcar-latest";
  }

  /** `DEFAULT_IMAGE` and `DEFAULT_CONTAINER_IMAGE` name images that
      `create_all_images` declares. */
  lemma DefaultImagesDeclared(m: map<string, ImageDecl>)
    ensures Catalogue[0].0 in Declared(m, Catalogue)
    ensures Reference(Declared(m, Catalogue)[Catalogue[0].0]) == DefaultImage
    ensures Catalogue[20].0 in Declared(m, Catalogue)
    ensures Reference(Declared(m, Catalogue)[Catalogue[20].0]) == DefaultContainerImage
  {
    CatalogueSize();
    CatalogueKeysDistinct();
    DefaultImageNamesFirstKey();
    DefaultContainerImageNamesFlatcarKey();
    DeclaredReference(m, Catalogue, 0);
    DeclaredReference(m, Catalogue, 20);
  }

  /** Only `windows25-runner` carries timeouts. */
  lemma OnlyWindowsRunnerHasTimeouts()
    ensures forall i | 0 <= i < |Catalogue| :: Catalogue[i].1.timeouts.Some? <==> Catalogue[i].0 == "windows25-runner"
  {
    CatalogueSize();
    WindowsRunnerIsLastKey();
    TimeoutsOnlyInLastEntry();
  }

  /** `windows25-runner` is the last key, and only that one. */
  lemma WindowsRunnerIsLastKey()
    ensures |CatalogueKeys| == 22
    ensures forall i | 0 <= i < 22 :: CatalogueKeys[i] == "windows25-runner" <==> i == 21
  {
    KeysPairwiseDifferent();
    assert CatalogueKeys[21] == "windows25-runner";
  }

  /** The last entry is the only one with timeouts. */
  lemma TimeoutsOnlyInLastEntry()
    ensures |CatalogueEntries| == 22
    ensures forall i | 0 <= i < 22 :: CatalogueEntries[i].timeouts.Some? <==> i == 21
  {
  }

  /** The module-level state of `images.py`. */
  class ImageRegistry {
    /** `IMAGES_PULUMI`: key to declared image. */
    var imagesPulumi: map<string, ImageDecl>

    /** The module as imported: `IMAGES_PULUMI = {}`. */
    constructor ()
      ensures imagesPulumi == map[]
    {
      imagesPulumi := map[];
    }

    /** `create_all_images`: one dictionary assignment per table entry, in
        the table's order. */
    method CreateAllImages()
      modifies this
      ensures imagesPulumi == Declared(old(imagesPulumi), Catalogue)
    {
      var i := 0;
      while i < |Catalogue|
        invariant 0 <= i <= |Catalogue|
        invariant imagesPulumi == Declared(old(imagesPulumi), Catalogue[..i])
      {
        var (name, imageDef) := Catalogue[i];
        assert Catalogue[..i + 1][..i] == Catalogue[..i];
        imagesPulumi := imagesPulumi[name := CreateImage(name, imageDef)];
        i := i + 1;
      }
      assert Catalogue[..i] == Catalogue;
    }
  }
}
