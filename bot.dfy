/** The chat bot's view of deployments (bot/deployments.go): each Kubernetes
    deployment is flattened into the formatter's record of its namespace, name,
    replica counts and container images. */
module Bot {

  /** The parts of a Kubernetes deployment the bot reads. */
  datatype Container = Container(name: string, image: string)

  datatype Deployment = Deployment(
    namespace: string,
    name: string,
    replicas: int,
    availableReplicas: int,
    containers: seq<Container>)

  /** The formatter's record of one deployment. */
  datatype Formatted = Formatted(
    namespace: string,
    name: string,
    replicas: int,
    availableReplicas: int,
    images: seq<string>)

  /** The images of a list of containers, in order. */
  function ImagesOf(containers: seq<Container>): (images: seq<string>)
    ensures |images| == |containers|
    ensures forall i :: 0 <= i < |containers| ==> images[i] == containers[i].image
  {
    if containers == [] then []
    else ImagesOf(containers[..|containers| - 1]) + [containers[|containers| - 1].image]
  }

  /** The record of one deployment. */
  function FormattedOf(d: Deployment): (f: Formatted)
    ensures f.namespace == d.namespace && f.name == d.name
    ensures f.replicas == d.replicas && f.availableReplicas == d.availableReplicas
    ensures f.images == ImagesOf(d.containers)
  {
    Formatted(d.namespace, d.name, d.replicas, d.availableReplicas, ImagesOf(d.containers))
  }

  /** The records of a list of deployments, in order. */
  function InternalOf(deployments: seq<Deployment>): (formatted: seq<Formatted>)
    ensures |formatted| == |deployments|
    ensures forall i :: 0 <= i < |deployments| ==> formatted[i] == FormattedOf(deployments[i])
  {
    if deployments == [] then []
    else InternalOf(deployments[..|deployments| - 1]) + [FormattedOf(deployments[|deployments| - 1])]
  }

  /** getImages: one image per container, in container order. */
  method GetImages(d: Deployment) returns (images: seq<string>)
    ensures images == ImagesOf(d.containers)
  {
    images := [];
    for i := 0 to |d.containers|
      invariant images == ImagesOf(d.containers[..i])
    {
      assert d.containers[..i + 1][..i] == d.containers[..i];
      images := images + [d.containers[i].image];
    }
    assert d.containers[..|d.containers|] == d.containers;
  }

  /** convertToInternal: one record per deployment, in input order, with the
      namespace, name and replica counts copied unchanged. */
  method ConvertToInternal(deployments: seq<Deployment>) returns (formatted: seq<Formatted>)
    ensures formatted == InternalOf(deployments)
  {
    formatted := [];
    for i := 0 to |deployments|
      invariant formatted == InternalOf(deployments[..i])
    {
      var images := GetImages(deployments[i]);
      assert deployments[..i + 1][..i] == deployments[..i];
      formatted := formatted + [Formatted(deployments[i].namespace, deployments[i].name,
                                          deployments[i].replicas, deployments[i].availableReplicas, images)];
    }
    assert deployments[..|deployments|] == deployments;
  }

  /** The records depend on each deployment alone: converting a concatenation
      is concatenating the conversions. */
  lemma {:induction false} InternalOfConcat(xs: seq<Deployment>, ys: seq<Deployment>)
    ensures InternalOf(xs + ys) == InternalOf(xs) + InternalOf(ys)
  {
    var l, r := InternalOf(xs + ys), InternalOf(xs) + InternalOf(ys);
    assert |l| == |r|;
    forall i | 0 <= i < |l|
      ensures l[i] == r[i]
    {
      if i < |xs| {
        assert (xs + ys)[i] == xs[i];
      } else {
        assert (xs + ys)[i] == ys[i - |xs|];
      }
    }
  }
}
